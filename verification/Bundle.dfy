/** The runtime module bundle as bytes: what its layout is, and that decoding accepts exactly the
    layouts of well-formed member lists. */
module Bundle {
  import opened Words
  import opened LittleEndian

  const HEADER: nat := 96
  const ENTRY: nat := 128
  const MAX_BYTES: nat := 4 * 1024 * 1024

  type Bytes = seq<Byte>

  /** Compression, hashing and package verification, which this model does not look into. */
  datatype Tools = Tools(compress: Bytes -> Bytes, inflate: Bytes -> Option<Bytes>, sha: Bytes -> Bytes,
    verify: Bytes -> Option<Bytes>)

  ghost predicate Lawful(t: Tools) {
    && (forall x :: t.inflate(t.compress(x)) == Some(x) && t.compress(x) != [])
    && (forall x :: |t.sha(x)| == 32)
    && forall x :: t.verify(x).Some? ==> 68 <= |x| <= MAX_BYTES + 64
  }

  /** A member with the compressed blob that carries it. */
  datatype Item = Item(path: Bytes, data: Bytes, blob: Bytes)

  // ---------- paths ----------

  function Games(): Bytes { [0x61, 0x70, 0x70, 0x73, 0x2f, 0x67, 0x61, 0x6d, 0x65, 0x73, 0x2f] }

  function Disc(): Bytes { [0x61, 0x70, 0x70, 0x73, 0x2f, 0x64, 0x69, 0x73, 0x63, 0x2f] }

  function Suffix(): Bytes { [0x2e, 0x6b, 0x75, 0x69] }

  predicate Alphanumeric(c: Byte) { 0x61 <= c <= 0x7a || 0x30 <= c <= 0x39 }

  predicate NameByte(c: Byte) { Alphanumeric(c) || c == 0x2e || c == 0x5f || c == 0x2d }

  /** `[a-z0-9][a-z0-9._-]*\.kui` */
  predicate ModuleName(s: Bytes) {
    && |s| >= 5 && s[|s| - 4..] == Suffix() && Alphanumeric(s[0])
    && forall i :: 0 <= i < |s| - 4 ==> NameByte(s[i])
  }

  predicate ValidPath(p: Bytes) {
    && |p| < 80
    && (forall i :: 0 <= i < |p| - 1 ==> !(p[i] == 0x2e && p[i + 1] == 0x2e))
    && ((Games() <= p && ModuleName(p[|Games()|..])) || (Disc() <= p && ModuleName(p[|Disc()|..])))
  }

  /** Lexicographic order, as on the strings. */
  predicate Less(a: Bytes, b: Bytes) {
    b != [] && (a == [] || a[0] < b[0] || (a[0] == b[0] && Less(a[1..], b[1..])))
  }

  predicate HexDigit(c: Byte) { 0x30 <= c <= 0x39 || 0x61 <= c <= 0x66 }

  predicate ValidBuild(b: Bytes) { |b| == 12 && forall i :: 0 <= i < 12 ==> HexDigit(b[i]) }

  lemma ValidPathBytes(p: Bytes)
    requires ValidPath(p)
    ensures p != [] && 0 !in p
  {
    var k := if Games() <= p && ModuleName(p[|Games()|..]) then |Games()| else |Disc()|;
    var name := p[k..];
    forall i | 0 <= i < |p| ensures p[i] != 0 {
      if i >= k {
        assert p[i] == name[i - k];
        if i - k >= |name| - 4 { assert name[|name| - 4..][i - k - (|name| - 4)] == name[i - k]; }
        else { assert NameByte(name[i - k]); }
      } else if Games() <= p {
        assert p[..|Games()|] == Games();
      }
    }
  }

  // ---------- layout ----------

  function Zeros(n: nat): (b: Bytes)
    ensures |b| == n && forall i :: 0 <= i < n ==> b[i] == 0
  {
    seq(n, _ => 0)
  }

  /** Sizes that fit the fields of an entry. */
  predicate Fits(item: Item, offset: nat) {
    |item.path| <= 80 && |item.data| < 0x1_0000_0000 && |item.blob| < 0x1_0000_0000 && offset < 0x1_0000_0000
  }

  function EntryBytes(t: Tools, item: Item, offset: nat): Bytes
    requires Fits(item, offset)
  {
    item.path + Zeros(80 - |item.path|) + Le(|item.data|) + Le(|item.blob|) + Le(offset) + Le(0) + t.sha(item.data)
  }

  predicate AllFit(items: seq<Item>, offset: nat) {
    items == [] || (Fits(items[0], offset) && AllFit(items[1..], offset + |items[0].blob|))
  }

  /** The entries, each naming the offset where the blobs before it end. */
  function EntriesBytes(t: Tools, items: seq<Item>, offset: nat): Bytes
    requires AllFit(items, offset)
  {
    if items == [] then [] else EntryBytes(t, items[0], offset) + EntriesBytes(t, items[1..], offset + |items[0].blob|)
  }

  function BlobsBytes(items: seq<Item>): Bytes {
    if items == [] then [] else items[0].blob + BlobsBytes(items[1..])
  }

  function Magic(): Bytes { [0x4b, 0x55, 0x49, 0x4d, 0x42, 0x30, 0x31, 0x00] }

  function HeaderBytes(count: Word, total: Word, build: Bytes, digest: Bytes): Bytes {
    Magic() + Le(1) + Le(HEADER) + Le(count) + Le(ENTRY) + Le(total) + Le(0) + build + Zeros(20) + digest
  }

  /** One member a bundle may carry after `previous`. */
  predicate Good(t: Tools, item: Item, previous: Bytes, build: Bytes) {
    && ValidPath(item.path) && Less(previous, item.path)
    && 68 <= |item.data| <= MAX_BYTES + 64 && item.blob != []
    && t.inflate(item.blob) == Some(item.data) && t.verify(item.data) == Some(build)
  }

  /** Strictly increasing valid paths, and blobs that hold verified packages of this build. */
  predicate AllGood(t: Tools, items: seq<Item>, previous: Bytes, build: Bytes) {
    items == [] || (Good(t, items[0], previous, build) && AllGood(t, items[1..], items[0].path, build))
  }

  // ---------- one entry ----------

  /** Bytes up to the first zero. */
  function Text(b: Bytes): (p: Bytes)
    ensures p <= b && 0 !in p && (|p| < |b| ==> b[|p|] == 0)
  {
    if b == [] || b[0] == 0 then [] else [b[0]] + Text(b[1..])
  }

  lemma {:induction false} TextOfPadded(p: Bytes, n: nat)
    requires 0 !in p
    ensures Text(p + Zeros(n)) == p
    decreases |p|
  {
    if p != [] {
      assert (p + Zeros(n))[1..] == p[1..] + Zeros(n);
      TextOfPadded(p[1..], n);
    }
  }

  /** Parse one 128-byte entry whose blob must start at `offset`. */
  function ParseEntry(t: Tools, data: Bytes, e: Bytes, offset: nat, previous: Bytes, build: Bytes): (r: Option<Item>)
    requires |e| == ENTRY && offset <= |data|
    ensures r.Some? ==> 0 < |r.value.blob| <= |data| - offset
  {
    var path := Text(e[..80]);
    var raw, compressed, at, zero := WordAt(e, 80), WordAt(e, 84), WordAt(e, 88), WordAt(e, 92);
    if !ValidPath(path) || !Less(previous, path) || e[..80] != path + Zeros(80 - |path|)
      || !(68 <= raw <= MAX_BYTES + 64) || compressed == 0 || at != offset || zero != 0
        || compressed > |data| - offset then None
    else
      var blob := data[offset..offset + compressed];
      match t.inflate(blob)
      case None => None
      case Some(member) =>
        if |member| != raw || t.sha(member) != e[96..128] || t.verify(member) != Some(build) then None
        else Some(Item(path, member, blob))
  }

  lemma EntryFields(t: Tools, e: Bytes, item: Item, offset: nat)
    requires |e| == ENTRY && Fits(item, offset) && |t.sha(item.data)| == 32
    ensures e == EntryBytes(t, item, offset) <==>
      e[..80] == item.path + Zeros(80 - |item.path|) && WordAt(e, 80) == |item.data| && WordAt(e, 84) == |item.blob|
      && WordAt(e, 88) == offset && WordAt(e, 92) == 0 && e[96..128] == t.sha(item.data)
  {
    hide Le, WordAt, Zeros;
    LeIsWord(e, 80, |item.data|);
    LeIsWord(e, 84, |item.blob|);
    LeIsWord(e, 88, offset);
    LeIsWord(e, 92, 0);
    var b := EntryBytes(t, item, offset);
    EntrySlices(t, item, offset);
    if e[..80] == b[..80] && e[80..84] == b[80..84] && e[84..88] == b[84..88] && e[88..92] == b[88..92]
      && e[92..96] == b[92..96] && e[96..128] == b[96..128] {
      SameBySlices(e, b);
    }
  }

  lemma EntrySlices(t: Tools, item: Item, offset: nat)
    requires Fits(item, offset) && |t.sha(item.data)| == 32
    ensures var b := EntryBytes(t, item, offset);
      && |b| == ENTRY && b[..80] == item.path + Zeros(80 - |item.path|) && b[80..84] == Le(|item.data|)
      && b[84..88] == Le(|item.blob|) && b[88..92] == Le(offset) && b[92..96] == Le(0) && b[96..128] == t.sha(item.data)
  {
    hide Le, Zeros;
  }

  lemma SameBySlices(a: Bytes, b: Bytes)
    requires |a| == |b| == ENTRY && a[..80] == b[..80] && a[80..84] == b[80..84] && a[84..88] == b[84..88]
    requires a[88..92] == b[88..92] && a[92..96] == b[92..96] && a[96..128] == b[96..128]
    ensures a == b
  {
    assert a == a[..80] + a[80..84] + a[84..88] + a[88..92] + a[92..96] + a[96..128];
    assert b == b[..80] + b[80..84] + b[84..88] + b[88..92] + b[92..96] + b[96..128];
  }

  /** Parsing gives an item exactly when the entry is that item's entry, at this offset, and its blob
      comes next. */
  lemma ParseEntryExactly(t: Tools, data: Bytes, e: Bytes, offset: nat, previous: Bytes, build: Bytes, item: Item)
    requires |e| == ENTRY && offset <= |data| <= MAX_BYTES && forall x :: |t.sha(x)| == 32
    ensures ParseEntry(t, data, e, offset, previous, build) == Some(item) <==>
      Good(t, item, previous, build) && offset + |item.blob| <= |data|
        && data[offset..offset + |item.blob|] == item.blob
      && Fits(item, offset) && e == EntryBytes(t, item, offset)
  {
    hide ValidPath, Less, WordAt, EntryBytes, Zeros, Text;
    if ParseEntry(t, data, e, offset, previous, build) == Some(item) {
      EntryFields(t, e, item, offset);
    }
    if Good(t, item, previous, build) && offset + |item.blob| <= |data|
      && data[offset..offset + |item.blob|] == item.blob
      && Fits(item, offset) && e == EntryBytes(t, item, offset) {
      EntryFields(t, e, item, offset);
      ValidPathBytes(item.path);
      TextOfPadded(item.path, 80 - |item.path|);
    }
  }

  // ---------- all entries ----------

  /** Parse the rest of the entry table; the blobs must tile the rest of the data. */
  function ParseTable(t: Tools, data: Bytes, table: Bytes, offset: nat, previous: Bytes,
    build: Bytes): Option<seq<Item>>
    requires |table| % ENTRY == 0 && offset <= |data|
    decreases |table|
  {
    if table == [] then (if offset == |data| then Some([]) else None)
    else match ParseEntry(t, data, table[..ENTRY], offset, previous, build)
      case None => None
      case Some(item) =>
        match ParseTable(t, data, table[ENTRY..], offset + |item.blob|, item.path, build)
        case None => None
        case Some(rest) => Some([item] + rest)
  }

  /** What a table and the data behind it look like when they carry these items. */
  ghost predicate Carries(t: Tools, data: Bytes, table: Bytes, offset: nat, previous: Bytes, build: Bytes,
    items: seq<Item>) {
    && AllGood(t, items, previous, build) && AllFit(items, offset) && offset <= |data|
    && table == EntriesBytes(t, items, offset) && data[offset..] == BlobsBytes(items)
  }

  lemma {:induction false} EntriesSize(t: Tools, items: seq<Item>, offset: nat)
    requires AllFit(items, offset) && forall x :: |t.sha(x)| == 32
    ensures |EntriesBytes(t, items, offset)| == |items| * ENTRY
    decreases |items|
  {
    if items != [] {
      EntrySlices(t, items[0], offset);
      EntriesSize(t, items[1..], offset + |items[0].blob|);
    }
  }

  /** One item at the front of what is carried. */
  lemma CarriesFirst(t: Tools, data: Bytes, table: Bytes, offset: nat, previous: Bytes, build: Bytes, items: seq<Item>)
    requires items != [] && offset <= |data| && forall x :: |t.sha(x)| == 32
    ensures Carries(t, data, table, offset, previous, build, items) <==>
      && |table| >= ENTRY && Fits(items[0], offset) && Good(t, items[0], previous, build)
      && table[..ENTRY] == EntryBytes(t, items[0], offset)
      && offset + |items[0].blob| <= |data| && data[offset..offset + |items[0].blob|] == items[0].blob
      && Carries(t, data, table[ENTRY..], offset + |items[0].blob|, items[0].path, build, items[1..])
  {
    hide Good, EntryBytes;
    var item, next := items[0], offset + |items[0].blob|;
    if Carries(t, data, table, offset, previous, build, items) {
      EntrySlices(t, item, offset);
      assert data[offset..] == item.blob + BlobsBytes(items[1..]);
      assert data[next..] == data[offset..][|item.blob|..];
    }
    if next <= |data| && data[offset..next] == item.blob {
      assert data[offset..] == data[offset..next] + data[next..];
    }
    if |table| >= ENTRY { assert table == table[..ENTRY] + table[ENTRY..]; }
  }

  lemma {:induction false} ParseTableExactly(t: Tools, data: Bytes, table: Bytes, offset: nat, previous: Bytes,
    build: Bytes, items: seq<Item>)
    requires |table| % ENTRY == 0 && offset <= |data| <= MAX_BYTES && forall x :: |t.sha(x)| == 32
    ensures ParseTable(t, data, table, offset, previous, build) == Some(items) <==>
      Carries(t, data, table, offset, previous, build, items)
    decreases |table|
  {
    hide ParseEntry, Good, EntryBytes, Fits;
    if table == [] {
      if items != [] { CarriesFirst(t, data, table, offset, previous, build, items); }
      else { assert data[offset..] == [] <==> offset == |data|; }
    } else if items == [] {
    } else {
      hide Carries;
      ParseEntryExactly(t, data, table[..ENTRY], offset, previous, build, items[0]);
      CarriesFirst(t, data, table, offset, previous, build, items);
      var first := ParseEntry(t, data, table[..ENTRY], offset, previous, build);
      if first.Some? {
        ParseTableExactly(t, data, table[ENTRY..], offset + |first.value.blob|, first.value.path, build, items[1..]);
      }
      assert items == [items[0]] + items[1..];
    }
  }

  // ---------- the whole bundle ----------

  datatype Decoded = Decoded(items: seq<Item>, build: Bytes)

  predicate HeaderAccepted(data: Bytes) {
    && HEADER <= |data| <= MAX_BYTES && data[..8] == Magic()
    && WordAt(data, 8) == 1 && WordAt(data, 12) == HEADER && 1 <= WordAt(data, 16) <= 64 && WordAt(data, 20) == ENTRY
    && WordAt(data, 24) == |data| && WordAt(data, 28) == 0 && data[44..64] == Zeros(20) && ValidBuild(data[32..44])
  }

  function Decode(t: Tools, data: Bytes): Option<Decoded> {
    if !HeaderAccepted(data) then None
    else
      var offset := HEADER + WordAt(data, 16) * ENTRY;
      if offset > |data| || t.sha(data[HEADER..offset]) != data[64..96] then None
      else match ParseTable(t, data, data[HEADER..offset], offset, [], data[32..44])
        case None => None
        case Some(items) => Some(Decoded(items, data[32..44]))
  }

  function Total(items: seq<Item>): nat { HEADER + |items| * ENTRY + |BlobsBytes(items)| }

  predicate WellFormed(t: Tools, items: seq<Item>, build: Bytes) {
    ValidBuild(build) && 1 <= |items| <= 64 && AllGood(t, items, [], build) && Total(items) <= MAX_BYTES
  }

  lemma {:induction false} GoodFits(t: Tools, items: seq<Item>, offset: nat, previous: Bytes, build: Bytes)
    requires AllGood(t, items, previous, build) && offset + |BlobsBytes(items)| <= MAX_BYTES
    ensures AllFit(items, offset)
    decreases |items|
  {
    if items != [] { GoodFits(t, items[1..], offset + |items[0].blob|, items[0].path, build); }
  }

  function Layout(t: Tools, items: seq<Item>, build: Bytes): Bytes
    requires WellFormed(t, items, build)
  {
    var offset := HEADER + |items| * ENTRY;
    GoodFits(t, items, offset, [], build);
    var entries := EntriesBytes(t, items, offset);
    HeaderBytes(|items|, Total(items), build, t.sha(entries)) + entries + BlobsBytes(items)
  }

  lemma HeaderFields(data: Bytes, count: Word, total: Word, build: Bytes, digest: Bytes)
    requires |data| >= HEADER && |build| == 12 && |digest| == 32
    ensures data[..HEADER] == HeaderBytes(count, total, build, digest) <==>
      && data[..8] == Magic() && WordAt(data, 8) == 1 && WordAt(data, 12) == HEADER && WordAt(data, 16) == count
      && WordAt(data, 20) == ENTRY && WordAt(data, 24) == total && WordAt(data, 28) == 0
      && data[32..44] == build && data[44..64] == Zeros(20) && data[64..96] == digest
  {
    hide Le, WordAt, Zeros, Magic;
    LeIsWord(data, 8, 1);
    LeIsWord(data, 12, HEADER);
    LeIsWord(data, 16, count);
    LeIsWord(data, 20, ENTRY);
    LeIsWord(data, 24, total);
    LeIsWord(data, 28, 0);
    HeaderSlices(count, total, build, digest);
    var h, b := data[..HEADER], HeaderBytes(count, total, build, digest);
    assert h[..8] == data[..8] && h[8..12] == data[8..12] && h[12..16] == data[12..16] && h[16..20] == data[16..20];
    assert h[20..24] == data[20..24] && h[24..28] == data[24..28] && h[28..32] == data[28..32];
    assert h[32..44] == data[32..44] && h[44..64] == data[44..64] && h[64..96] == data[64..96];
    assert h == h[..8] + h[8..12] + h[12..16] + h[16..20] + h[20..24] + h[24..28] + h[28..32] + h[32..44]
      + h[44..64] + h[64..96];
  }

  lemma HeaderSlices(count: Word, total: Word, build: Bytes, digest: Bytes)
    requires |build| == 12 && |digest| == 32
    ensures |Magic()| == 8
    ensures var b := HeaderBytes(count, total, build, digest);
      && |b| == HEADER && b[..8] == Magic() && b[8..12] == Le(1) && b[12..16] == Le(HEADER) && b[16..20] == Le(count)
      && b[20..24] == Le(ENTRY) && b[24..28] == Le(total) && b[28..32] == Le(0)
      && b[32..44] == build && b[44..64] == Zeros(20) && b[64..96] == digest
  {
    hide Le, Zeros;
  }

  /** Decoding accepts exactly the layouts: whatever is accepted is byte for byte the layout of what it
      decodes to, and every layout decodes to what it was made from. */
  lemma DecodeExactly(t: Tools, data: Bytes, items: seq<Item>, build: Bytes)
    requires forall x :: |t.sha(x)| == 32
    ensures Decode(t, data) == Some(Decoded(items, build)) <==>
      WellFormed(t, items, build) && data == Layout(t, items, build)
  {
    hide ParseTable, HeaderAccepted, WordAt, HeaderBytes, AllGood, EntriesBytes, BlobsBytes, ValidBuild;
    if Decode(t, data) == Some(Decoded(items, build)) { DecodedIsLayout(t, data, items, build); }
    if WellFormed(t, items, build) && data == Layout(t, items, build) { LayoutDecodes(t, items, build); }
  }

  lemma DecodedIsLayout(t: Tools, data: Bytes, items: seq<Item>, build: Bytes)
    requires (forall x :: |t.sha(x)| == 32) && Decode(t, data) == Some(Decoded(items, build))
    ensures WellFormed(t, items, build) && data == Layout(t, items, build)
  {
    hide ParseTable, WordAt, HeaderBytes, AllGood, EntriesBytes, BlobsBytes, AllFit;
    var count := WordAt(data, 16);
    var offset := HEADER + count * ENTRY;
    ParseTableExactly(t, data, data[HEADER..offset], offset, [], build, items);
    EntriesSize(t, items, offset);
    assert |data| == offset + |BlobsBytes(items)|;
    HeaderFields(data, count, |data|, build, t.sha(data[HEADER..offset]));
    assert data == data[..HEADER] + data[HEADER..offset] + data[offset..];
  }

  lemma LayoutDecodes(t: Tools, items: seq<Item>, build: Bytes)
    requires (forall x :: |t.sha(x)| == 32) && WellFormed(t, items, build)
    ensures Decode(t, Layout(t, items, build)) == Some(Decoded(items, build))
  {
    hide ParseTable, WordAt, HeaderBytes, AllGood, EntriesBytes, BlobsBytes, AllFit, Zeros;
    var data, offset := Layout(t, items, build), HEADER + |items| * ENTRY;
    GoodFits(t, items, offset, [], build);
    EntriesSize(t, items, offset);
    var entries := EntriesBytes(t, items, offset);
    HeaderSlices(|items|, Total(items), build, t.sha(entries));
    assert data[..HEADER] == HeaderBytes(|items|, Total(items), build, t.sha(entries));
    HeaderFields(data, |items|, Total(items), build, t.sha(entries));
    assert data[HEADER..offset] == entries && data[offset..] == BlobsBytes(items);
    ParseTableExactly(t, data, entries, offset, [], build, items);
  }

  /** The blobs of an accepted bundle tile the bytes behind the table: no gap, no overlap. */
  lemma {:induction false} BlobsTile(items: seq<Item>, i: nat)
    requires i < |items|
    ensures |BlobsBytes(items[..i])| + |items[i].blob| == |BlobsBytes(items[..i + 1])| <= |BlobsBytes(items)|
    ensures BlobsBytes(items)[|BlobsBytes(items[..i])|..|BlobsBytes(items[..i + 1])|] == items[i].blob
    decreases |items|
  {
    if i == 0 {
      assert items[..1][1..] == [];
    } else {
      BlobsTile(items[1..], i - 1);
      assert items[..i][1..] == items[1..][..i - 1] && items[..i + 1][1..] == items[1..][..i];
    }
  }
}
