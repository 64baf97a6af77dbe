/** The bundle's names as text: what a path and a build are, by their regular expressions. */
module BundleText {
  import opened Words
  import opened LittleEndian
  import opened Bundle
  import opened BundleCodec

  function Ascii(text: string): (b: Bytes)
    requires forall i :: 0 <= i < |text| ==> text[i] < 128 as char
    ensures |b| == |text| && forall i :: 0 <= i < |text| ==> b[i] == text[i] as int
  {
    seq(|text|, i requires 0 <= i < |text| => text[i] as int)
  }

  lemma Texts()
    ensures Magic() == Ascii("KUIMB01") + [0] && Suffix() == Ascii(".kui")
    ensures Games() == Ascii("apps/games/") && Disc() == Ascii("apps/disc/")
  {
  }

  predicate Lower(c: Byte) { 'a' as int <= c <= 'z' as int }

  predicate Digit(c: Byte) { '0' as int <= c <= '9' as int }

  /** `[a-z0-9][a-z0-9._-]*` */
  predicate Stem(s: Bytes) {
    && s != [] && (Lower(s[0]) || Digit(s[0]))
    && forall i :: 0 <= i < |s| ==>
         Lower(s[i]) || Digit(s[i]) || s[i] == '.' as int || s[i] == '_' as int || s[i] == '-' as int
  }

  /** Two dots side by side. */
  predicate Climbs(p: Bytes) { exists i :: 0 <= i < |p| - 1 && Dot(p[i]) && Dot(p[i + 1]) }

  predicate Dot(c: Byte) { c == '.' as int }

  ghost predicate Under(prefix: Bytes, p: Bytes) {
    exists stem :: Stem(stem) && p == prefix + stem + Ascii(".kui")
  }

  /** `apps/(games|disc)/[a-z0-9][a-z0-9._-]*\.kui` */
  ghost predicate Matches(p: Bytes) { Under(Ascii("apps/games/"), p) || Under(Ascii("apps/disc/"), p) }

  lemma ModuleNameIsStem(s: Bytes)
    ensures ModuleName(s) <==> |s| >= 5 && s == s[..|s| - 4] + Ascii(".kui") && Stem(s[..|s| - 4])
  {
    Texts();
    if |s| >= 5 {
      var stem := s[..|s| - 4];
      assert s == stem + s[|s| - 4..];
      assert forall i :: 0 <= i < |stem| ==> stem[i] == s[i];
    }
  }

  lemma NamedUnder(prefix: Bytes, p: Bytes)
    requires prefix <= p && ModuleName(p[|prefix|..])
    ensures Under(prefix, p)
  {
    hide ModuleName, Stem, Ascii;
    var name := p[|prefix|..];
    ModuleNameIsStem(name);
    var stem := name[..|name| - 4];
    assert p == prefix + name == prefix + (stem + Ascii(".kui"));
    assert prefix + (stem + Ascii(".kui")) == prefix + stem + Ascii(".kui");
  }

  lemma UnderNamed(prefix: Bytes, p: Bytes)
    requires Under(prefix, p)
    ensures prefix <= p && ModuleName(p[|prefix|..])
  {
    hide ModuleName, Stem, Ascii;
    var stem :| Stem(stem) && p == prefix + stem + Ascii(".kui");
    var name := stem + Ascii(".kui");
    assert prefix + stem + Ascii(".kui") == prefix + name;
    assert p[|prefix|..] == name && name[..|name| - 4] == stem;
    StemLong(stem);
    ModuleNameIsStem(name);
  }

  lemma StemLong(stem: Bytes)
    requires Stem(stem)
    ensures |stem| >= 1
  {
  }

  lemma UnderExactly(prefix: Bytes, p: Bytes)
    ensures Under(prefix, p) <==> prefix <= p && ModuleName(p[|prefix|..])
  {
    hide ModuleName, Under;
    if Under(prefix, p) { UnderNamed(prefix, p); }
    if prefix <= p && ModuleName(p[|prefix|..]) { NamedUnder(prefix, p); }
  }

  /** A path is valid exactly when it is short, does not climb and matches. */
  lemma ValidPathExactly(p: Bytes)
    ensures ValidPath(p) <==> |p| < 80 && !Climbs(p) && Matches(p)
  {
    hide ModuleName, Under, Ascii, Games, Disc;
    Texts();
    UnderExactly(Games(), p);
    UnderExactly(Disc(), p);
  }

  /** `[0-9a-f]{12}` */
  lemma ValidBuildExactly(b: Bytes)
    ensures ValidBuild(b) <==> |b| == 12 && forall i :: 0 <= i < |b| ==> Hexadecimal(b[i])
  {
    hide HexDigit, Hexadecimal;
    forall i | 0 <= i < |b| ensures HexDigit(b[i]) <==> Hexadecimal(b[i]) { HexDigitExactly(b[i]); }
  }

  predicate Hexadecimal(c: Byte) { exists k :: 0 <= k < 16 && "0123456789abcdef"[k] as int == c }

  lemma HexDigitExactly(c: Byte)
    ensures HexDigit(c) <==> Hexadecimal(c)
  {
    var digits := "0123456789abcdef";
    if HexDigit(c) {
      var k := if c <= 0x39 then c - 0x30 else c - 0x57;
      assert digits[k] as int == c;
    }
  }

  /** The sizes of header, entry, bundle and member. */
  lemma Sizes(t: Tools, item: Item, previous: Bytes, build: Bytes)
    ensures HEADER == 96 && ENTRY == 128 && MAX_BYTES == 4194304
    ensures Good(t, item, previous, build) ==> 68 <= |item.data| <= 4194368 && |item.blob| > 0 && |item.path| < 80
    ensures Good(t, item, previous, build) <==>
      ValidPath(item.path) && Less(previous, item.path) && |item.data| >= 68 && |item.data| - 64 <= 4194304
      && |item.blob| > 0 && t.inflate(item.blob) == Some(item.data) && t.verify(item.data) == Some(build)
  {
    hide ModuleName, Less;
  }

  // ---------- embedded bundles ----------

  /** The prefix: the magic text, version 1 and a header of 96 bytes. */
  lemma OccursExactly(payload: Bytes, at: nat)
    ensures Occurs(payload, at) <==>
      && at + 16 <= |payload| && payload[at..at + 7] == Ascii("KUIMB01") && payload[at + 7] == 0
      && WordAt(payload, at + 8) == 1 && WordAt(payload, at + 12) == 96
  {
    hide Le, WordAt, Ascii;
    Texts();
    if at + 16 <= |payload| {
      var b, p := payload[at..at + 16], Magic() + Le(1) + Le(HEADER);
      LeIsWord(payload, at + 8, 1);
      LeIsWord(payload, at + 12, HEADER);
      assert payload[at + 8..at + 12] == b[8..12] && payload[at + 12..at + 16] == b[12..16];
      assert p[8..12] == Le(1) && p[12..16] == Le(HEADER) && p[..8] == Magic();
      assert b == b[..8] + b[8..12] + b[12..16];
      assert b[..8] == payload[at..at + 7] + [payload[at + 7]];
      assert Magic()[..7] == Ascii("KUIMB01") && Magic()[7] == 0;
    }
  }

  /** A bundle is embedded exactly where the payload goes on with a complete one. */
  lemma EmbeddedExactly(t: Tools, payload: Bytes, at: nat)
    requires at <= |payload|
    ensures Embedded(t, payload, at) <==>
      exists bundle {:trigger Decode(t, bundle)} :: Decode(t, bundle).Some? && bundle <= payload[at..]
  {
    hide Decode, WordAt;
    if Embedded(t, payload, at) {
      var bundle := payload[at..at + WordAt(payload, at + 24)];
      assert Decode(t, bundle).Some? && bundle <= payload[at..];
    }
    forall bundle {:trigger Decode(t, bundle)} | Decode(t, bundle).Some? && bundle <= payload[at..]
      ensures Embedded(t, payload, at)
    {
      DecodedSize(t, bundle);
      assert payload[at..at + |bundle|] == bundle;
      SliceWord(payload, at, at + |bundle|, at + 24);
    }
  }

  lemma DecodedSize(t: Tools, bundle: Bytes)
    requires Decode(t, bundle).Some?
    ensures |bundle| >= 96 && WordAt(bundle, 24) == |bundle|
  {
    hide WordAt, ParseTable;
  }
}
