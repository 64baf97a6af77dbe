/** The boot badge's MR run-length code: the encoder's output decodes to what went in, and no bytes that decode
    to the same pixels are shorter unless they use a long form on 129 equal pixels. */
module BootBadge {
  import opened Words

  const COLORS: int := 32
  const LONGEST: nat := 127

  type Pixels = seq<Byte>

  // ---------- decoding ----------

  /** One token: how many pixels of which color, and how many bytes it takes. */
  datatype Token = Token(count: nat, color: Byte, size: nat)

  /** Literals below 128; runs with their count in the token, in the next byte after 0x81, or extended
      after 0x82. */
  function TokenAt(data: seq<Byte>, at: nat): (r: Option<Token>)
    requires at < |data|
    ensures r.Some? ==> 1 <= r.value.size && at + r.value.size <= |data|
  {
    var token := data[at];
    if token < 128 then Some(Token(1, token, 1))
    else if at + 1 >= |data| then None
    else if token == 0x81 || (token == 0x82 && data[at + 1] >= 128) then
      if at + 2 >= |data| then None
      else
        var second: int := data[at + 1];
        Some(Token(if token == 0x81 then second else 256 + second % 128, data[at + 2], 3))
    else Some(Token(token % 128, data[at + 1], 2))
  }

  /** Every form of a token, as it is written. */
  lemma TokenForms(count: nat, color: Byte, rest: seq<Byte>)
    ensures color < 128 ==> TokenAt([color] + rest, 0) == Some(Token(1, color, 1))
    ensures count < 128 && count != 1 && (count == 2 ==> color < 128) ==>
      TokenAt([128 + count, color] + rest, 0) == Some(Token(count, color, 2))
    ensures count < 256 ==> TokenAt([129, count, color] + rest, 0) == Some(Token(count, color, 3))
    ensures 256 <= count < 384 ==> TokenAt([130, count - 128, color] + rest, 0) == Some(Token(count, color, 3))
  {
  }

  function Repeat(color: Byte, count: nat): (p: Pixels)
    ensures |p| == count && forall i :: 0 <= i < count ==> p[i] == color
  {
    seq(count, _ => color)
  }

  /** The pixels the tokens from `at` stand for; None for truncation, an empty run or a foreign color. */
  function Decode(data: seq<Byte>, at: nat): Option<Pixels>
    decreases |data| - at
  {
    if at >= |data| then Some([])
    else match TokenAt(data, at)
      case None => None
      case Some(token) =>
        if token.count == 0 || token.color >= COLORS then None
        else match Decode(data, at + token.size)
          case None => None
          case Some(rest) => Some(Repeat(token.color, token.count) + rest)
  }

  /** The checking loop: it counts pixels only, and accepts exactly the data that decode to `area`. */
  method Inspect(data: seq<Byte>, offset: nat, area: nat) returns (ok: bool)
    ensures ok <==> Decode(data, offset).Some? && |Decode(data, offset).value| == area
  {
    hide TokenAt;
    var cursor, pixels := offset, 0;
    while cursor < |data|
      invariant pixels <= area
      invariant Decode(data, offset).Some? <==> Decode(data, cursor).Some?
      invariant Decode(data, offset).Some? ==> |Decode(data, offset).value| == pixels + |Decode(data, cursor).value|
      decreases |data| - cursor
    {
      var token := TokenAt(data, cursor);
      if token.None? { return false; }
      if token.value.count == 0 || token.value.color >= COLORS || token.value.count > area - pixels { return false; }
      cursor, pixels := cursor + token.value.size, pixels + token.value.count;
    }
    ok := pixels == area;
  }

  // ---------- encoding ----------

  predicate Same(x: Pixels, n: nat) { n <= |x| && forall i :: 0 <= i < n ==> x[i] == x[0] }

  /** How many pixels the encoder takes: the run at the front, at most 127. */
  function Run(x: Pixels, n: nat): (r: nat)
    requires 1 <= n <= LONGEST && Same(x, n)
    ensures n <= r <= LONGEST && Same(x, r)
    ensures r < LONGEST && r < |x| ==> x[r] != x[0]
    decreases |x| - n
  {
    if n < LONGEST && n < |x| && x[n] == x[0] then Run(x, n + 1) else n
  }

  function Taken(x: Pixels): (r: nat)
    requires x != []
    ensures 1 <= r <= LONGEST && Same(x, r) && (r < LONGEST && r < |x| ==> x[r] != x[0])
  {
    Run(x, 1)
  }

  function Code(length: nat, color: Byte): seq<Byte>
    requires 1 <= length <= LONGEST
  {
    if length > 1 then [128 + length, color] else [color]
  }

  function Encode(x: Pixels): seq<Byte>
    decreases |x|
  {
    if x == [] then [] else Code(Taken(x), x[0]) + Encode(x[Taken(x)..])
  }

  /** The two nested loops. */
  method Compress(indices: Pixels) returns (compressed: seq<Byte>)
    ensures compressed == Encode(indices)
  {
    hide Encode, Run, Taken, Code;
    compressed := [];
    var at := 0;
    assert indices[0..] == indices;
    while at < |indices|
      invariant 0 <= at <= |indices|
      invariant Encode(indices) == compressed + Encode(indices[at..])
    {
      ghost var rest := indices[at..];
      var length := 1;
      while length < LONGEST && at + length < |indices| && indices[at + length] == indices[at]
        invariant 1 <= length <= LONGEST && at + length <= |indices|
        invariant Same(rest, length)
      {
        assert rest[length] == indices[at + length];
        length := length + 1;
      }
      assert at + length < |indices| ==> rest[length] == indices[at + length];
      TakenIs(rest, length);
      EncodeStep(rest);
      assert rest[length..] == indices[at + length..];
      assert compressed + (Code(length, indices[at]) + Encode(rest[length..])) ==
        compressed + Code(length, indices[at]) + Encode(rest[length..]);
      compressed := compressed + Code(length, indices[at]);
      at := at + length;
    }
    EncodeNothing();
    assert indices[at..] == [];
  }

  lemma TakenIs(x: Pixels, n: nat)
    requires 1 <= n <= LONGEST && Same(x, n) && (n < LONGEST && n < |x| ==> x[n] != x[0])
    ensures Taken(x) == n
  {
  }

  lemma EncodeStep(x: Pixels)
    requires x != []
    ensures Encode(x) == Code(Taken(x), x[0]) + Encode(x[Taken(x)..])
  {
  }

  lemma EncodeNothing()
    ensures Encode([]) == []
  {
  }

  predicate InPalette(x: Pixels) { forall i :: 0 <= i < |x| ==> x[i] < COLORS }

  /** The decoder only looks at the bytes from its cursor on. */
  lemma {:induction false} DecodeSuffix(before: seq<Byte>, data: seq<Byte>, at: nat)
    ensures Decode(before + data, |before| + at) == Decode(data, at)
    decreases |data| - at
  {
    if at < |data| {
      TokenSuffix(before, data, at);
      hide TokenAt;
      var token := TokenAt(data, at);
      if token.Some? { DecodeSuffix(before, data, at + token.value.size); }
    }
  }

  lemma TokenSuffix(before: seq<Byte>, data: seq<Byte>, at: nat)
    requires at < |data|
    ensures TokenAt(before + data, |before| + at) == TokenAt(data, at)
  {
    var all := before + data;
    assert all[|before| + at] == data[at];
    assert at + 1 < |data| ==> all[|before| + at + 1] == data[at + 1];
    assert at + 2 < |data| ==> all[|before| + at + 2] == data[at + 2];
  }

  /** An encoder token reads back as one run: neither long form can arise. */
  lemma CodeReads(length: nat, color: Byte, rest: seq<Byte>)
    requires 1 <= length <= LONGEST && color < COLORS
    ensures TokenAt(Code(length, color) + rest, 0) == Some(Token(length, color, |Code(length, color)|))
  {
  }

  /** Decoding the encoder's output gives the pixels back. */
  lemma {:induction false} RoundTrip(x: Pixels)
    requires InPalette(x)
    ensures Decode(Encode(x), 0) == Some(x)
    decreases |x|
  {
    hide Decode, Encode, Taken, Code, Repeat;
    if x == [] {
      EncodeNothing();
      DecodeNothing([]);
    } else {
      var n := Taken(x);
      RoundTrip(x[n..]);
      EncodeStep(x);
      DecodeRun(n, x[0], Encode(x[n..]));
      assert x == Repeat(x[0], n) + x[n..];
    }
  }

  lemma DecodeNothing(data: seq<Byte>)
    requires data == []
    ensures Decode(data, 0) == Some([])
  {
  }

  /** Decoding reads the first code and goes on with the rest. */
  lemma DecodeRun(length: nat, color: Byte, rest: seq<Byte>)
    requires 1 <= length <= LONGEST && color < COLORS && Decode(rest, 0).Some?
    ensures Decode(Code(length, color) + rest, 0) == Some(Repeat(color, length) + Decode(rest, 0).value)
  {
    hide TokenAt;
    CodeReads(length, color, rest);
    DecodeSuffix(Code(length, color), rest, 0);
  }

  // ---------- nothing shorter ----------

  function Cost(count: nat): nat { if count > 1 then 2 else 1 }

  lemma Unfold(x: Pixels)
    requires x != []
    ensures |Encode(x)| == Cost(Taken(x)) + |Encode(x[Taken(x)..])|
  {
  }

  /** Without its first pixel a run is one shorter, unless it was cut at 127 and goes on. */
  lemma TakenNext(x: Pixels)
    requires |x| > 1 && Taken(x) > 1
    ensures Taken(x[1..]) == Taken(x) - 1 || (Taken(x) == Taken(x[1..]) == LONGEST && |x| > LONGEST)
  {
    var m, y := Taken(x), x[1..];
    var n := Taken(y);
    assert y[0] == x[1] == x[0];
    assert forall i :: 1 <= i < |x| ==> x[i] == y[i - 1];
  }

  /** One more pixel in front never makes the code shorter, and at most one byte longer. */
  lemma {:induction false} FirstPixel(x: Pixels)
    requires x != []
    ensures |Encode(x[1..])| <= |Encode(x)| <= 1 + |Encode(x[1..])|
    decreases |x|
  {
    hide Encode, Run, Taken;
    Unfold(x);
    var m := Taken(x);
    if m > 1 {
      TakenNext(x);
      Unfold(x[1..]);
      var n := Taken(x[1..]);
      assert x[1..][n..] == x[1 + n..];
      if n == m {
        assert x[m..][1..] == x[1 + m..];
        FirstPixel(x[m..]);
      }
    }
  }

  lemma {:induction false} Suffix(x: Pixels, n: nat)
    requires n <= |x|
    ensures |Encode(x[n..])| <= |Encode(x)|
    decreases n
  {
    hide Encode;
    if n > 0 {
      FirstPixel(x);
      Suffix(x[1..], n - 1);
      assert x[1..][n - 1..] == x[n..];
    } else {
      assert x[0..] == x;
    }
  }

  /** Any first piece costs at least what taking the whole run saves. */
  lemma FirstPiece(x: Pixels, n: nat)
    requires x != [] && 1 <= n <= LONGEST && Same(x, n)
    ensures |Encode(x)| <= Cost(n) + |Encode(x[n..])|
  {
    hide Encode, Run, Taken;
    if n == 1 {
      FirstPixel(x);
    } else {
      Unfold(x);
      var m := Taken(x);
      Suffix(x[n..], m - n);
      assert x[n..][m - n..] == x[m..];
    }
  }

  /** Only literals and two-byte runs from here on. */
  predicate ShortTokens(data: seq<Byte>, at: nat)
    decreases |data| - at
  {
    at >= |data| || (
      var token := TokenAt(data, at);
      token.Some? && token.value.size <= 2 && ShortTokens(data, at + token.value.size))
  }

  predicate LongAt(x: Pixels, i: nat) { i + 129 <= |x| && forall j :: i <= j < i + 129 ==> x[j] == x[i] }

  /** Somewhere 129 pixels in a row are equal. */
  ghost predicate LongRun(x: Pixels) { exists i :: LongAt(x, i) }

  /** A long form saves nothing on 128 pixels. */
  lemma FirstLong(x: Pixels)
    requires Same(x, 128)
    ensures |Encode(x)| <= 3 + |Encode(x[128..])|
  {
    hide Encode, Run, Taken;
    FirstPiece(x, 127);
    FirstPixel(x[127..]);
    assert x[127..][1..] == x[128..];
  }

  /** How many pixels a token of one, two or three bytes covers. */
  lemma TokenCovers(data: seq<Byte>, at: nat)
    requires at < |data| && TokenAt(data, at).Some?
    ensures var token := TokenAt(data, at).value;
      && token.size <= 3 && (token.size == 1 ==> token.count == 1) && (token.size == 2 ==> token.count <= LONGEST)
  {
  }

  /** What is left behind a token has no long run either, and the token itself is none. */
  lemma RestShort(color: Byte, count: nat, rest: Pixels)
    requires !LongRun(Repeat(color, count) + rest)
    ensures count <= 128 && !LongRun(rest)
  {
    var x := Repeat(color, count) + rest;
    if count > 128 { assert LongAt(x, 0); }
    forall i: nat ensures !LongAt(rest, i) {
      if LongAt(rest, i) {
        assert forall j :: i <= j < i + 129 ==> x[count + j] == rest[j];
        assert forall j :: count + i <= j < count + i + 129 ==> x[j] == rest[j - count];
        assert LongAt(x, count + i);
      }
    }
  }

  /** No bytes that decode to the same pixels are shorter than the encoder's, if they use no long form or the
      pixels have no long run. */
  lemma {:induction false} NothingShorter(data: seq<Byte>, at: nat, x: Pixels)
    requires at <= |data| && Decode(data, at) == Some(x) && (ShortTokens(data, at) || !LongRun(x))
    ensures |Encode(x)| <= |data| - at
    decreases |data| - at
  {
    hide Encode, TokenAt, LongRun, Run;
    if at == |data| {
      EncodeNothing();
    } else {
      TokenCovers(data, at);
      var token := TokenAt(data, at).value;
      var rest, n := Decode(data, at + token.size).value, token.count;
      if !ShortTokens(data, at) { RestShort(token.color, n, rest); }
      NothingShorter(data, at + token.size, rest);
      assert x[n..] == rest;
      if n <= LONGEST { FirstPiece(x, n); } else { FirstLong(x); }
    }
  }

  // ---------- something shorter ----------

  /** A long form for two encoder tokens of the same color. */
  lemma LongReads(count: nat, color: Byte, rest: seq<Byte>)
    requires 129 <= count < 256 && color < COLORS && Decode(rest, 0).Some?
    ensures Decode([0x81, count, color] + rest, 0) == Some(Repeat(color, count) + Decode(rest, 0).value)
  {
    DecodeSuffix([0x81, count, color], rest, 0);
  }

  /** Where the encoder cuts a run at 127 and takes at least two more, one token of three bytes does for four. */
  lemma ShorterHere(x: Pixels) returns (data: seq<Byte>)
    requires InPalette(x) && |x| >= 129 && Taken(x) == LONGEST && x[127] == x[128] == x[0]
    ensures Decode(data, 0) == Some(x) && |data| < |Encode(x)|
  {
    hide Encode, Decode, Run;
    var more := x[127..];
    var m := Taken(more);
    assert more[0] == more[1] == x[0];
    Unfold(x);
    Unfold(more);
    var rest := more[m..];
    RoundTrip(rest);
    LongReads(127 + m, x[0], Encode(rest));
    assert forall i :: 127 <= i < 127 + m ==> x[i] == more[i - 127];
    assert x == Repeat(x[0], 127 + m) + rest;
    data := [0x81, 127 + m, x[0]] + Encode(rest);
  }

  lemma {:induction false} LongIsShorter(x: Pixels, i: nat) returns (data: seq<Byte>)
    requires InPalette(x) && LongAt(x, i)
    ensures Decode(data, 0) == Some(x) && |data| < |Encode(x)|
    decreases |x|
  {
    hide Encode, Decode, Run, Code;
    var n := Taken(x);
    if i < n {
      assert x[n - 1] == x[0];
      assert n == LONGEST && x[127] == x[128] == x[i] == x[0];
      data := ShorterHere(x);
    } else {
      var rest := x[n..];
      assert LongAt(rest, i - n) by { assert forall j :: i - n <= j < i - n + 129 ==> rest[j] == x[n + j]; }
      var better := LongIsShorter(rest, i - n);
      DecodeRun(n, x[0], better);
      EncodeStep(x);
      assert x == Repeat(x[0], n) + rest;
      data := Code(n, x[0]) + better;
    }
  }

  /** The encoder's code is a shortest one exactly when no 129 pixels in a row are equal. */
  lemma ShortestExactly(x: Pixels)
    requires InPalette(x)
    ensures (forall data :: Decode(data, 0) == Some(x) ==> |Encode(x)| <= |data|) <==> !LongRun(x)
  {
    hide Encode, Decode, LongAt;
    if LongRun(x) {
      var i :| LongAt(x, i);
      var data := LongIsShorter(x, i);
    } else {
      forall data | Decode(data, 0) == Some(x) ensures |Encode(x)| <= |data| { NothingShorter(data, 0, x); }
    }
  }
}
