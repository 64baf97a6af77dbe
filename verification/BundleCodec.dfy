/** The loops that write, read and find a bundle, proved against its layout. */
module BundleCodec {
  import opened Words
  import opened LittleEndian
  import opened Bundle

  type Members = map<Bytes, Bytes>

  // ---------- sorted members ----------

  lemma {:induction false} LessTotal(a: Bytes, b: Bytes)
    ensures a == b || Less(a, b) || Less(b, a)
    ensures !(Less(a, b) && Less(b, a)) && !(a == b && Less(a, b))
    decreases |a|
  {
    if a != [] && b != [] && a[0] == b[0] {
      LessTotal(a[1..], b[1..]);
      assert a == [a[0]] + a[1..] && b == [b[0]] + b[1..];
    }
  }

  lemma {:induction false} LessTransitive(a: Bytes, b: Bytes, c: Bytes)
    requires Less(a, b) && Less(b, c)
    ensures Less(a, c)
    decreases |a|
  {
    if a != [] && a[0] == b[0] && b[0] == c[0] { LessTransitive(a[1..], b[1..], c[1..]); }
  }

  predicate Least(keys: set<Bytes>, p: Bytes) { p in keys && forall q :: q in keys && q != p ==> Less(p, q) }

  lemma {:induction false} LeastExists(keys: set<Bytes>)
    requires keys != {}
    ensures exists p :: Least(keys, p)
    decreases |keys|
  {
    hide Less;
    var k :| k in keys;
    var others := keys - {k};
    if others == {} {
      assert keys == {k};
      assert Least(keys, k);
    } else {
      assert keys == others + {k};
      LeastExists(others);
      var p :| Least(others, p);
      LessTotal(k, p);
      if Less(k, p) {
        forall q | q in keys && q != k ensures Less(k, q) { if q != p { LessTransitive(k, p, q); } }
        assert Least(keys, k);
      } else {
        assert Least(keys, p);
      }
    }
  }

  lemma LeastUnique(keys: set<Bytes>, p: Bytes, q: Bytes)
    requires Least(keys, p) && Least(keys, q)
    ensures p == q
  {
    LessTotal(p, q);
  }

  function Sorted(keys: set<Bytes>): (s: seq<Bytes>)
    ensures |s| == |keys| && forall p :: p in s <==> p in keys
    decreases |keys|
  {
    if keys == {} then []
    else
      LeastExists(keys);
      assert forall p, q :: Least(keys, p) && Least(keys, q) ==> p == q by {
        forall p, q | Least(keys, p) && Least(keys, q) ensures p == q { LeastUnique(keys, p, q); }
      }
      var p :| Least(keys, p);
      assert keys == keys - {p} + {p};
      [p] + Sorted(keys - {p})
  }

  /** The members as `encode` lays them out: by path, each with its compressed blob. */
  function Items(t: Tools, m: Members): (items: seq<Item>)
    ensures |items| == |m|
  {
    ItemsOf(t, m, Sorted(m.Keys))
  }

  function ItemsOf(t: Tools, m: Members, paths: seq<Bytes>): (items: seq<Item>)
    requires forall p :: p in paths ==> p in m
    ensures |items| == |paths|
    ensures forall i :: 0 <= i < |paths| ==> items[i] == Item(paths[i], m[paths[i]], t.compress(m[paths[i]]))
  {
    seq(|paths|, i requires 0 <= i < |paths| => Item(paths[i], m[paths[i]], t.compress(m[paths[i]])))
  }

  /** The dictionary `decode` fills. */
  function Output(items: seq<Item>): Members {
    if items == [] then map[] else Output(items[..|items| - 1])[items[|items| - 1].path := items[|items| - 1].data]
  }

  lemma {:induction false} OutputOfItems(t: Tools, m: Members, paths: seq<Bytes>)
    requires forall p :: p in paths ==> p in m
    ensures forall p :: p in Output(ItemsOf(t, m, paths)) <==> p in paths
    ensures forall p :: p in paths ==> Output(ItemsOf(t, m, paths))[p] == m[p]
    decreases |paths|
  {
    if paths != [] {
      var front := paths[..|paths| - 1];
      assert ItemsOf(t, m, paths)[..|paths| - 1] == ItemsOf(t, m, front);
      OutputOfItems(t, m, front);
      assert paths == front + [paths[|paths| - 1]];
    }
  }

  /** Sorting and blobs lose nothing. */
  lemma OutputIsMembers(t: Tools, m: Members)
    ensures Output(Items(t, m)) == m
  {
    OutputOfItems(t, m, Sorted(m.Keys));
  }

  // ---------- which maps can be written ----------

  /** What `encode` demands: a build, 1-64 members, valid paths, packages of this build, 4 MiB in all. */
  ghost predicate Encodable(t: Tools, m: Members, build: Bytes) {
    && ValidBuild(build) && 1 <= |m| <= 64
    && (forall p :: p in m ==> ValidPath(p) && t.verify(m[p]) == Some(build))
    && Total(Items(t, m)) <= MAX_BYTES
  }

  lemma {:induction false} SortedAscends(keys: set<Bytes>, previous: Bytes)
    requires forall p :: p in keys ==> Less(previous, p)
    ensures Ascends(Sorted(keys), previous)
    decreases |keys|
  {
    hide Less;
    if keys != {} {
      var s := Sorted(keys);
      assert s[1..] == Sorted(keys - {s[0]}) && Least(keys, s[0]);
      assert keys == keys - {s[0]} + {s[0]};
      SortedAscends(keys - {s[0]}, s[0]);
    }
  }

  predicate Ascends(paths: seq<Bytes>, previous: Bytes) {
    paths == [] || (Less(previous, paths[0]) && Ascends(paths[1..], paths[0]))
  }

  lemma {:induction false} ItemsGood(t: Tools, m: Members, build: Bytes, paths: seq<Bytes>, previous: Bytes)
    requires Lawful(t) && Ascends(paths, previous) && forall p :: p in paths ==> p in m
    ensures AllGood(t, ItemsOf(t, m, paths), previous, build)
      <==> forall p :: p in paths ==> ValidPath(p) && t.verify(m[p]) == Some(build)
    decreases |paths|
  {
    hide Less, ValidPath;
    if paths != [] {
      assert ItemsOf(t, m, paths)[1..] == ItemsOf(t, m, paths[1..]);
      ItemsGood(t, m, build, paths[1..], paths[0]);
      assert paths == [paths[0]] + paths[1..];
      var item := ItemsOf(t, m, paths)[0];
      assert item == Item(paths[0], m[paths[0]], t.compress(m[paths[0]]));
    }
  }

  /** An encodable map is exactly one whose sorted items make a well-formed bundle. */
  lemma EncodableExactly(t: Tools, m: Members, build: Bytes)
    requires Lawful(t)
    ensures Encodable(t, m, build) <==> WellFormed(t, Items(t, m), build)
  {
    hide ValidPath, ValidBuild, Total, AllGood, Lawful, Items;
    if AllGood(t, Items(t, m), [], build) { PathsValid(t, m, build); }
    if forall p :: p in m ==> ValidPath(p) { SortedGood(t, m, build); }
  }

  lemma PathsValid(t: Tools, m: Members, build: Bytes)
    requires AllGood(t, Items(t, m), [], build)
    ensures forall p :: p in m ==> ValidPath(p)
  {
    hide ValidPath, AllGood;
    var paths := Sorted(m.Keys);
    forall p | p in m ensures ValidPath(p) {
      assert p in paths;
      var i :| 0 <= i < |paths| && paths[i] == p;
      GoodAt(t, Items(t, m), [], build, i);
    }
  }

  lemma SortedGood(t: Tools, m: Members, build: Bytes)
    requires Lawful(t) && forall p :: p in m ==> ValidPath(p)
    ensures AllGood(t, Items(t, m), [], build) <==> forall p :: p in m ==> t.verify(m[p]) == Some(build)
  {
    hide ValidPath, AllGood, Lawful, ItemsOf;
    forall p | p in m.Keys ensures Less([], p) { ValidPathBytes(p); }
    SortedAscends(m.Keys, []);
    ItemsGood(t, m, build, Sorted(m.Keys), []);
  }

  lemma {:induction false} GoodAt(t: Tools, items: seq<Item>, previous: Bytes, build: Bytes, i: nat)
    requires AllGood(t, items, previous, build) && i < |items|
    ensures ValidPath(items[i].path) && t.verify(items[i].data) == Some(build)
    decreases i
  {
    hide ValidPath;
    if i > 0 { GoodAt(t, items[1..], items[0].path, build, i - 1); }
  }

  /** Decoding what encoding wrote gives the members back. */
  lemma EncodeDecodes(t: Tools, m: Members, build: Bytes)
    requires Lawful(t) && Encodable(t, m, build)
    ensures WellFormed(t, Items(t, m), build)
    ensures var r := Decode(t, Layout(t, Items(t, m), build));
      r.Some? && Output(r.value.items) == m && r.value.build == build
  {
    hide Decode, Layout, WellFormed, Encodable;
    EncodableExactly(t, m, build);
    LayoutDecodes(t, Items(t, m), build);
    OutputIsMembers(t, m);
  }

  // ---------- writing ----------

  lemma {:induction false} AppendBlob(done: seq<Item>, item: Item)
    ensures BlobsBytes(done + [item]) == BlobsBytes(done) + item.blob
    decreases |done|
  {
    if done == [] {
      assert [item][1..] == [];
    } else {
      assert (done + [item])[1..] == done[1..] + [item];
      AppendBlob(done[1..], item);
    }
  }

  lemma {:induction false} AppendFits(done: seq<Item>, item: Item, offset: nat)
    requires AllFit(done, offset) && Fits(item, offset + |BlobsBytes(done)|)
    ensures AllFit(done + [item], offset)
    decreases |done|
  {
    hide Fits;
    if done == [] {
      assert [item][1..] == [];
    } else {
      assert (done + [item])[1..] == done[1..] + [item];
      AppendFits(done[1..], item, offset + |done[0].blob|);
    }
  }

  lemma {:induction false} AppendEntry(t: Tools, done: seq<Item>, item: Item, offset: nat)
    requires AllFit(done, offset) && AllFit(done + [item], offset) && Fits(item, offset + |BlobsBytes(done)|)
    ensures EntriesBytes(t, done + [item], offset) ==
      EntriesBytes(t, done, offset) + EntryBytes(t, item, offset + |BlobsBytes(done)|)
    decreases |done|
  {
    hide EntryBytes, Fits;
    var all := done + [item];
    if done == [] {
      assert all[1..] == [];
    } else {
      assert all[1..] == done[1..] + [item];
      var next := offset + |done[0].blob|;
      AppendEntry(t, done[1..], item, next);
      assert EntriesBytes(t, all, offset) == EntryBytes(t, done[0], offset) + EntriesBytes(t, done[1..] + [item], next);
    }
  }

  /** Grow the entries and the blobs member by member; the result is the layout, and there is one
      exactly for an encodable map. */
  method Encode(t: Tools, m: Members, build: Bytes) returns (r: Option<Bytes>)
    requires Lawful(t)
    ensures r.Some? <==> Encodable(t, m, build)
    ensures r.Some? ==> WellFormed(t, Items(t, m), build) && r.value == Layout(t, Items(t, m), build)
  {
    hide EntriesBytes, EntryBytes, HeaderBytes, ValidPath, ValidBuild, AllFit, AllGood, Lawful, Items, BlobsBytes;
    EncodableExactly(t, m, build);
    if !ValidBuild(build) || !(1 <= |m| <= 64) { return None; }
    var items := Items(t, m);
    var entries, blobs, offset, i := [], [], HEADER + |m| * ENTRY, 0;
    var start := offset;
    NothingWritten(t, start);
    while i < |items|
      invariant 0 <= i <= |items|
      invariant AllFit(items[..i], start) && entries == EntriesBytes(t, items[..i], start)
      invariant blobs == BlobsBytes(items[..i]) && offset == start + |blobs|
      invariant forall k :: 0 <= k < i ==> ValidPath(items[k].path) && t.verify(items[k].data) == Some(build)
    {
      var item := items[i];
      if !ValidPath(item.path) || t.verify(item.data) != Some(build) {
        RefusedItem(t, items, build, i);
        return None;
      }
      assert items[..i + 1] == items[..i] + [item];
      if !Fits(item, offset) {
        TooLarge(t, items, build, i);
        return None;
      }
      AppendBlob(items[..i], item);
      AppendFits(items[..i], item, start);
      AppendEntry(t, items[..i], item, start);
      entries := entries + EntryBytes(t, item, offset);
      blobs := blobs + item.blob;
      offset, i := offset + |item.blob|, i + 1;
    }
    assert items[..i] == items;
    WrittenGood(t, m, build);
    if offset > MAX_BYTES { return None; }
    r := Some(HeaderBytes(|m|, offset, build, t.sha(entries)) + entries + blobs);
  }

  lemma NothingWritten(t: Tools, offset: nat)
    ensures AllFit([], offset) && EntriesBytes(t, [], offset) == [] && BlobsBytes([]) == []
  {
  }

  lemma RefusedItem(t: Tools, items: seq<Item>, build: Bytes, i: nat)
    requires i < |items| && (!ValidPath(items[i].path) || t.verify(items[i].data) != Some(build))
    ensures !WellFormed(t, items, build)
  {
    hide ValidPath;
    if AllGood(t, items, [], build) { GoodAt(t, items, [], build, i); }
  }

  lemma TooLarge(t: Tools, items: seq<Item>, build: Bytes, i: nat)
    requires i < |items| && !Fits(items[i], HEADER + |items| * ENTRY + |BlobsBytes(items[..i])|)
    ensures !WellFormed(t, items, build)
  {
    hide ValidPath, ValidBuild;
    if WellFormed(t, items, build) {
      GoodSizes(t, items, [], build, i);
      BlobsTile(items, i);
    }
  }

  lemma {:induction false} GoodSizes(t: Tools, items: seq<Item>, previous: Bytes, build: Bytes, i: nat)
    requires AllGood(t, items, previous, build) && i < |items|
    ensures |items[i].path| < 80 && |items[i].data| <= MAX_BYTES + 64
    decreases i
  {
    if i > 0 { GoodSizes(t, items[1..], items[0].path, build, i - 1); }
  }

  /** Members that passed one by one are good together, because they are sorted. */
  lemma WrittenGood(t: Tools, m: Members, build: Bytes)
    requires Lawful(t) && ValidBuild(build) && 1 <= |m| <= 64
    requires forall k :: 0 <= k < |m| ==> ValidPath(Items(t, m)[k].path) && t.verify(Items(t, m)[k].data) == Some(build)
    ensures WellFormed(t, Items(t, m), build) <==> Total(Items(t, m)) <= MAX_BYTES
  {
    hide ValidPath, ValidBuild, AllGood, Total, Lawful, ItemsOf;
    var paths := Sorted(m.Keys);
    forall p | p in m ensures ValidPath(p) && t.verify(m[p]) == Some(build) {
      assert p in paths;
      var k :| 0 <= k < |paths| && paths[k] == p;
      assert Items(t, m)[k] == Item(p, m[p], t.compress(m[p]));
    }
    EncodableExactly(t, m, build);
  }

  // ---------- reading ----------

  /** Walk the entries, keeping the running offset and the previous path. */
  method Read(t: Tools, data: Bytes) returns (r: Option<Members>)
    ensures r.Some? <==> Decode(t, data).Some?
    ensures r.Some? ==> r.value == Output(Decode(t, data).value.items)
  {
    hide ParseTable, ParseEntry, HeaderAccepted, WordAt, Prepend;
    if !HeaderAccepted(data) { return None; }
    HeaderRoom(data);
    var count, build := WordAt(data, 16), data[32..44];
    var offset: nat := HEADER + count * ENTRY;
    if offset > |data| || t.sha(data[HEADER..offset]) != data[64..96] { return None; }
    var output: Members, previous: Bytes, index := map[], [], 0;
    var end := offset;
    ghost var table: Bytes, done: seq<Item> := data[HEADER..end], [];
    ghost var whole := ParseTable(t, data, table, end, [], build);
    ParsedFirst(t, data, table, offset, previous, build, done);
    while index < count
      invariant 0 <= index <= count && HEADER + index * ENTRY <= end && end == HEADER + count * ENTRY && end <= |data|
      invariant offset <= |data| && table == data[HEADER + index * ENTRY..end]
      invariant output == Output(done)
      invariant whole == Prepend(done, ParseTable(t, data, table, offset, previous, build))
    {
      var e := data[HEADER + index * ENTRY..HEADER + (index + 1) * ENTRY];
      assert e == table[..ENTRY] && table[ENTRY..] == data[HEADER + (index + 1) * ENTRY..end];
      var item := ParseEntry(t, data, e, offset, previous, build);
      ParsedNext(t, data, table, offset, previous, build, done);
      if item.None? { return None; }
      output := output[item.value.path := item.value.data];
      assert (done + [item.value])[..|done|] == done;
      table, done := table[ENTRY..], done + [item.value];
      offset, previous, index := offset + |item.value.blob|, item.value.path, index + 1;
    }
    assert table == [];
    ParsedFirst(t, data, table, offset, previous, build, done);
    if offset != |data| { return None; }
    r := Some(output);
  }

  lemma HeaderRoom(data: Bytes)
    requires HeaderAccepted(data)
    ensures |data| >= HEADER
  {
  }

  lemma ParsedFirst(t: Tools, data: Bytes, table: Bytes, offset: nat, previous: Bytes, build: Bytes, done: seq<Item>)
    requires |table| % ENTRY == 0 && offset <= |data|
    ensures Prepend([], ParseTable(t, data, table, offset, previous, build)) ==
      ParseTable(t, data, table, offset, previous, build)
    ensures table == [] ==>
      Prepend(done, ParseTable(t, data, table, offset, previous, build)) ==
        (if offset == |data| then Some(done) else None)
  {
    hide ParseEntry;
    var rest := ParseTable(t, data, table, offset, previous, build);
    if rest.Some? { assert [] + rest.value == rest.value; }
    assert done + [] == done;
  }

  lemma ParsedNext(t: Tools, data: Bytes, table: Bytes, offset: nat, previous: Bytes, build: Bytes, done: seq<Item>)
    requires |table| % ENTRY == 0 && table != [] && offset <= |data|
    ensures var item := ParseEntry(t, data, table[..ENTRY], offset, previous, build);
      Prepend(done, ParseTable(t, data, table, offset, previous, build)) ==
        if item.None? then None
        else Prepend(done + [item.value],
          ParseTable(t, data, table[ENTRY..], offset + |item.value.blob|, item.value.path, build))
  {
    hide ParseEntry;
    var item := ParseEntry(t, data, table[..ENTRY], offset, previous, build);
    if item.Some? {
      var rest := ParseTable(t, data, table[ENTRY..], offset + |item.value.blob|, item.value.path, build);
      if rest.Some? { assert done + ([item.value] + rest.value) == done + [item.value] + rest.value; }
    }
  }

  // ---------- finding ----------

  function Prefix(): (p: Bytes)
    ensures |p| == 16
  {
    Magic() + Le(1) + Le(HEADER)
  }

  predicate Occurs(payload: Bytes, at: nat) { at + 16 <= |payload| && payload[at..at + 16] == Prefix() }

  function Find(payload: Bytes, start: nat): (at: Option<nat>)
    ensures at.Some? ==> start <= at.value && Occurs(payload, at.value)
    ensures at.Some? ==> forall i :: start <= i < at.value ==> !Occurs(payload, i)
    ensures at.None? ==> forall i :: start <= i ==> !Occurs(payload, i)
    decreases |payload| - start
  {
    if start + 16 > |payload| then None
    else if Occurs(payload, start) then Some(start)
    else Find(payload, start + 1)
  }

  /** A complete bundle stands here. */
  predicate Embedded(t: Tools, payload: Bytes, at: nat) {
    && at + HEADER <= |payload|
    && var size := WordAt(payload, at + 24);
       HEADER <= size <= |payload| - at && Decode(t, payload[at..at + size]).Some?
  }

  ghost predicate Sole(payload: Bytes, at: nat) { Occurs(payload, at) && forall i :: Occurs(payload, i) ==> i == at }

  /** The bundle is found exactly when its prefix occurs once, and a complete bundle stands there. */
  method Locate(t: Tools, payload: Bytes) returns (r: Option<(nat, Bytes)>)
    ensures r.Some? <==> exists at :: Sole(payload, at) && Embedded(t, payload, at)
    ensures r.Some? ==> Sole(payload, r.value.0) && Stands(t, payload, r.value)
  {
    hide Decode, Prefix, WordAt, Occurs, Embedded, AllFound, Sole;
    var found: seq<(nat, Bytes)>, start := [], 0;
    NoneFound(t, payload);
    while true
      invariant start <= |payload| && AllFound(t, payload, found, start)
      decreases |payload| - start
    {
      var at := Find(payload, start);
      if at.None? { break; }
      if !Embedded(t, payload, at.value) {
        SoleUnique(payload, at.value);
        return None;
      }
      EmbeddedFits(t, payload, at.value);
      var one := (at.value, payload[at.value..at.value + WordAt(payload, at.value + 24)]);
      OneMoreFound(t, payload, found, start, one);
      found := found + [one];
      start := at.value + 1;
    }
    FoundDecides(t, payload, found, start);
    if |found| != 1 { return None; }
    r := Some(found[0]);
  }

  /** The occurrences below `start`, in order, each with its bundle. */
  ghost predicate AllFound(t: Tools, payload: Bytes, found: seq<(nat, Bytes)>, start: nat) {
    && (forall k :: 0 <= k < |found| ==> found[k].0 < start && Stands(t, payload, found[k]))
    && (forall i :: 0 <= i < start && Occurs(payload, i) ==> Listed(found, i))
    && (forall j, k :: 0 <= j < k < |found| ==> found[j].0 < found[k].0)
  }

  ghost predicate Listed(found: seq<(nat, Bytes)>, at: nat) { exists k :: 0 <= k < |found| && found[k].0 == at }

  ghost predicate Stands(t: Tools, payload: Bytes, one: (nat, Bytes)) {
    && Occurs(payload, one.0) && Embedded(t, payload, one.0)
    && one.1 == payload[one.0..one.0 + WordAt(payload, one.0 + 24)]
  }

  lemma NoneFound(t: Tools, payload: Bytes)
    ensures AllFound(t, payload, [], 0)
  {
  }

  lemma EmbeddedFits(t: Tools, payload: Bytes, at: nat)
    requires Embedded(t, payload, at)
    ensures at + HEADER <= |payload| && at + WordAt(payload, at + 24) <= |payload|
  {
    hide Decode;
  }

  lemma SoleUnique(payload: Bytes, at: nat)
    requires Occurs(payload, at)
    ensures forall i :: Sole(payload, i) ==> i == at
  {
    hide Occurs;
  }

  lemma OneMoreFound(t: Tools, payload: Bytes, found: seq<(nat, Bytes)>, start: nat, one: (nat, Bytes))
    requires AllFound(t, payload, found, start) && start <= one.0 && Stands(t, payload, one)
    requires forall i :: start <= i < one.0 ==> !Occurs(payload, i)
    ensures AllFound(t, payload, found + [one], one.0 + 1)
  {
    hide Occurs, Embedded, WordAt;
    var longer := found + [one];
    forall i | 0 <= i < one.0 + 1 && Occurs(payload, i) ensures Listed(longer, i) {
      if i < start {
        assert Listed(found, i);
        var k :| 0 <= k < |found| && found[k].0 == i;
        assert longer[k].0 == i;
      } else {
        assert longer[|found|].0 == i;
      }
    }
  }

  lemma FoundDecides(t: Tools, payload: Bytes, found: seq<(nat, Bytes)>, start: nat)
    requires AllFound(t, payload, found, start) && forall i :: start <= i ==> !Occurs(payload, i)
    ensures |found| == 1 ==> Sole(payload, found[0].0) && Stands(t, payload, found[0])
    ensures |found| != 1 ==> forall at :: !Sole(payload, at)
  {
    hide Occurs, Embedded, WordAt;
    if |found| == 1 {
      forall i | Occurs(payload, i) ensures i == found[0].0 { assert Listed(found, i); }
    } else {
      forall at ensures !Sole(payload, at) {
        if Occurs(payload, at) {
          assert Listed(found, at);
          assert |found| >= 2 && Occurs(payload, found[0].0) && Occurs(payload, found[1].0) && found[0].0 < found[1].0;
        }
      }
    }
  }
}
