/** The splash decoder's pixel stage: undoing the five PNG row filters, blending over the splash
    background and packing to RGB565. */
module SplashPng {
  import opened Words

  type Bytes = seq<Byte>

  // ---------- predictors ----------

  function Distance(a: int, b: int): nat { if a >= b then a - b else b - a }

  /** The nearest of a, b, c to a + b - c, as the first index of the least distance. */
  function Nearest(a: Byte, b: Byte, c: Byte): Byte {
    var p := a + b - c;
    var da, db, dc := Distance(p, a), Distance(p, b), Distance(p, c);
    var least := if da <= db && da <= dc then da else if db <= dc then db else dc;
    if da == least then a else if db == least then b else c
  }

  /** The Paeth predictor of section 6.6 of RFC 2083: ties go to a, then b, then c. */
  function Paeth(a: Byte, b: Byte, c: Byte): Byte {
    var p := a + b - c;
    if Distance(p, a) <= Distance(p, b) && Distance(p, a) <= Distance(p, c) then a
    else if Distance(p, b) <= Distance(p, c) then b
    else c
  }

  lemma NearestIsPaeth(a: Byte, b: Byte, c: Byte)
    ensures Nearest(a, b, c) == Paeth(a, b, c)
    ensures var p := a + b - c; forall x :: x in [a, b, c] ==> Distance(p, Paeth(a, b, c)) <= Distance(p, x)
  {
  }

  function Predict(kind: int, a: Byte, b: Byte, c: Byte): Byte {
    if kind == 1 then a
    else if kind == 2 then b
    else if kind == 3 then (a + b) / 2
    else if kind == 4 then Nearest(a, b, c)
    else 0
  }

  // ---------- one row ----------

  /** The byte one pixel to the left, or zero. */
  function Left(row: Bytes, x: nat, channels: nat): Byte
    requires x <= |row| && channels >= 1
  {
    if x >= channels then row[x - channels] else 0
  }

  /** Filtering, as section 6 of RFC 2083 defines it on the unfiltered bytes. */
  function Filtered(kind: int, row: Bytes, previous: Bytes, channels: nat): (f: Bytes)
    requires |row| == |previous| && channels >= 1
    ensures |f| == |row|
    ensures forall x :: 0 <= x < |row| ==>
      f[x] == (row[x] - Predict(kind, Left(row, x, channels), previous[x], Left(previous, x, channels))) % 256
  {
    seq(|row|, x requires 0 <= x < |row| =>
      (row[x] - Predict(kind, Left(row, x, channels), previous[x], Left(previous, x, channels))) % 256)
  }

  /** The first n bytes restored; each needs the ones before it. */
  function Restored(kind: int, f: Bytes, previous: Bytes, channels: nat, n: nat): (row: Bytes)
    requires n <= |f| == |previous| && channels >= 1
    ensures |row| == n
    decreases n
  {
    if n == 0 then []
    else
      var done := Restored(kind, f, previous, channels, n - 1);
      var a, c := Left(done, n - 1, channels), Left(previous, n - 1, channels);
      done + [(f[n - 1] + Predict(kind, a, previous[n - 1], c)) % 256]
  }

  lemma AddBack(value: Byte, predictor: Byte)
    ensures ((value - predictor) % 256 + predictor) % 256 == value
    ensures ((value + predictor) % 256 - predictor) % 256 == value
  {
  }

  /** Restoring undoes filtering, for every filter type. */
  lemma {:induction false} RestoreFiltered(kind: int, row: Bytes, previous: Bytes, channels: nat, n: nat)
    requires n <= |row| == |previous| && channels >= 1
    ensures Restored(kind, Filtered(kind, row, previous, channels), previous, channels, n) == row[..n]
    decreases n
  {
    hide Predict;
    if n > 0 {
      RestoreFiltered(kind, row, previous, channels, n - 1);
      assert Left(row[..n - 1], n - 1, channels) == Left(row, n - 1, channels);
      AddBack(row[n - 1], Predict(kind, Left(row, n - 1, channels), previous[n - 1], Left(previous, n - 1, channels)));
    }
  }

  lemma {:induction false} RestoredPrefix(kind: int, f: Bytes, previous: Bytes, channels: nat, m: nat, n: nat)
    requires m <= n <= |f| == |previous| && channels >= 1
    ensures Restored(kind, f, previous, channels, n)[..m] == Restored(kind, f, previous, channels, m)
    decreases n
  {
    hide Predict;
    if m < n { RestoredPrefix(kind, f, previous, channels, m, n - 1); }
  }

  /** Filtering the restored row gives the stored bytes back. */
  lemma FilterRestored(kind: int, f: Bytes, previous: Bytes, channels: nat)
    requires |f| == |previous| && channels >= 1
    ensures Filtered(kind, Restored(kind, f, previous, channels, |f|), previous, channels) == f
  {
    hide Predict, Restored;
    var row := Restored(kind, f, previous, channels, |f|);
    forall x | 0 <= x < |f| ensures Filtered(kind, row, previous, channels)[x] == f[x] {
      RestoredByte(kind, f, previous, channels, x);
      AddBack(f[x], Predict(kind, Left(row, x, channels), previous[x], Left(previous, x, channels)));
    }
  }

  lemma RestoredByte(kind: int, f: Bytes, previous: Bytes, channels: nat, x: nat)
    requires x < |f| == |previous| && channels >= 1
    ensures var row := Restored(kind, f, previous, channels, |f|);
      row[x] == (f[x] + Predict(kind, Left(row, x, channels), previous[x], Left(previous, x, channels))) % 256
  {
    hide Predict;
    var row := Restored(kind, f, previous, channels, |f|);
    RestoredPrefix(kind, f, previous, channels, x, |f|);
    RestoredPrefix(kind, f, previous, channels, x + 1, |f|);
    assert row[x] == row[..x + 1][x];
    assert x >= channels ==> row[x - channels] == row[..x][x - channels];
  }

  /** The five filter types, as laws of the restored row: the stored byte plus nothing, the byte one pixel to the
      left, the one above, the floor of their mean, or their Paeth predictor.  Absent bytes count as zero. */
  lemma RestoredLaws(kind: int, f: Bytes, previous: Bytes, channels: nat, x: nat)
    requires x < |f| == |previous| && channels >= 1
    ensures var row := Restored(kind, f, previous, channels, |f|);
      var a: Byte := if x < channels then 0 else row[x - channels];
      var b: Byte := previous[x];
      var c: Byte := if x < channels then 0 else previous[x - channels];
      && (kind == 0 ==> row[x] == f[x])
      && (kind == 1 ==> row[x] == (f[x] + a) % 256)
      && (kind == 2 ==> row[x] == (f[x] + b) % 256)
      && (kind == 3 ==> row[x] == (f[x] + (a + b) / 2) % 256)
      && (kind == 4 ==> row[x] == (f[x] + Paeth(a, b, c)) % 256)
  {
    hide Restored, Nearest, Paeth;
    var row := Restored(kind, f, previous, channels, |f|);
    RestoredByte(kind, f, previous, channels, x);
    NearestIsPaeth(Left(row, x, channels), previous[x], Left(previous, x, channels));
  }

  /** The in-place loop over one row. */
  method RestoreRow(row: array<Byte>, kind: int, previous: Bytes, channels: nat)
    requires row.Length == |previous| && channels >= 1
    modifies row
    ensures row[..] == Restored(kind, old(row[..]), previous, channels, row.Length)
  {
    hide Predict;
    ghost var f := row[..];
    for x := 0 to row.Length
      invariant row[..x] == Restored(kind, f, previous, channels, x)
      invariant row[x..] == f[x..]
    {
      var a: Byte := if x >= channels then row[x - channels] else 0;
      var c: Byte := if x >= channels then previous[x - channels] else 0;
      assert row[x] == row[x..][0] == f[x];
      assert a == Left(row[..x], x, channels);
      ghost var done := row[..x];
      row[x] := (row[x] + Predict(kind, a, previous[x], c)) % 256;
      assert row[..x + 1] == done + [row[x]];
    }
    assert row[..] == row[..row.Length];
  }

  // ---------- pixels ----------

  /** A channel over its background, rounded to the nearest. */
  function Blend(channel: Byte, alpha: Byte, back: Byte): int { (channel * alpha + back * (255 - alpha) + 127) / 255 }

  /** The blend is the integer nearest to the exact mean, so it is a byte; full alpha keeps the channel
      and zero alpha gives the background. */
  lemma BlendNearest(channel: Byte, alpha: Byte, back: Byte)
    ensures var exact := channel * alpha + back * (255 - alpha);
      -127 <= 255 * Blend(channel, alpha, back) - exact <= 127
    ensures 0 <= Blend(channel, alpha, back) <= 255
    ensures alpha == 255 ==> Blend(channel, alpha, back) == channel
    ensures alpha == 0 ==> Blend(channel, alpha, back) == back
  {
    var exact: int := channel * alpha + back * (255 - alpha);
    assert 0 <= channel * alpha <= 255 * alpha && 0 <= back * (255 - alpha) <= 255 * (255 - alpha) by {
      Scaled(channel, alpha);
      Scaled(back, 255 - alpha);
    }
    assert 0 <= exact <= 255 * 255;
    Rounded(exact);
    if alpha == 255 { assert exact == 255 * channel; }
    if alpha == 0 { assert exact == 255 * back; }
  }

  lemma Scaled(x: Byte, y: Byte)
    ensures 0 <= x * y <= 255 * y
  {
  }

  lemma Rounded(exact: int)
    requires 0 <= exact <= 255 * 255
    ensures var q := (exact + 127) / 255; 0 <= q <= 255 && -127 <= 255 * q - exact <= 127
  {
  }

  /** Five, six and five bits. */
  function Pack(r: Byte, g: Byte, b: Byte): nat { Or(Or(r / 8 * 2048, g / 4 * 32), b / 8) }

  lemma {:induction false} OrDisjoint(a: nat, b: nat, k: nat)
    requires b < Pow2(k)
    ensures Or(a * Pow2(k), b) == a * Pow2(k) + b
    decreases k
  {
    if k == 0 {
      OrZero(a);
    } else {
      var half := Pow2(k - 1);
      assert a * Pow2(k) == 2 * (a * half);
      OrDisjoint(a, b / 2, k - 1);
    }
  }

  /** A packed pixel fits 16 bits and gives each channel's kept bits back. */
  lemma PackFits(r: Byte, g: Byte, b: Byte)
    ensures 0 <= Pack(r, g, b) < 0x1_0000
    ensures Pack(r, g, b) / 2048 == r / 8 && Pack(r, g, b) / 32 % 64 == g / 4 && Pack(r, g, b) % 32 == b / 8
  {
    hide Or;
    var x, y, z: int := r / 8, g / 4, b / 8;
    assert Pow2(11) == 2048 && Pow2(5) == 32 by { assert Pow2(6) == 64 && Pow2(10) == 1024; }
    OrDisjoint(x, y * 32, 11);
    OrDisjoint(x * 64 + y, z, 5);
    assert Pack(r, g, b) == x * 2048 + y * 32 + z;
  }

  // ---------- the whole image ----------

  predicate Geometry(stride: nat, channels: nat) { channels in {3, 4} && stride % channels == 0 }

  /** All rows restored in order; None if a filter byte is unknown. */
  function Rows(raw: Bytes, stride: nat, channels: nat, height: nat, previous: Bytes): Option<seq<Bytes>>
    requires |raw| == (stride + 1) * height && |previous| == stride && channels >= 1
    decreases height
  {
    if height == 0 then Some([])
    else
      RowFits(stride, height);
      if raw[0] > 4 then None
      else
        var row := Restored(raw[0], raw[1..1 + stride], previous, channels, stride);
        match Rows(raw[1 + stride..], stride, channels, height - 1, row)
        case None => None
        case Some(rest) => Some([row] + rest)
  }

  lemma RowFits(stride: nat, height: nat)
    requires height > 0
    ensures (stride + 1) * height == (stride + 1) * (height - 1) + stride + 1 && (stride + 1) * (height - 1) >= 0
  {
  }

  /** The stored form: each row with its own filter. */
  function Stored(rows: seq<Bytes>, kinds: Bytes, previous: Bytes, channels: nat): Bytes
    requires |rows| == |kinds| && channels >= 1 && forall i :: 0 <= i < |rows| ==> |rows[i]| == |previous|
  {
    if rows == [] then []
    else [kinds[0]] + Filtered(kinds[0], rows[0], previous, channels) + Stored(rows[1..], kinds[1..], rows[0], channels)
  }

  lemma {:induction false} StoredSize(rows: seq<Bytes>, kinds: Bytes, previous: Bytes, channels: nat)
    requires |rows| == |kinds| && channels >= 1 && forall i :: 0 <= i < |rows| ==> |rows[i]| == |previous|
    ensures |Stored(rows, kinds, previous, channels)| == (|previous| + 1) * |rows|
    decreases |rows|
  {
    hide Filtered;
    if rows != [] {
      StoredSize(rows[1..], kinds[1..], rows[0], channels);
      RowFits(|previous|, |rows|);
    }
  }

  /** Any mix of filters: reading the stored form gives the rows back. */
  lemma {:induction false} RowsOfStored(rows: seq<Bytes>, kinds: Bytes, previous: Bytes, channels: nat)
    requires |rows| == |kinds| && channels >= 1 && forall i :: 0 <= i < |rows| ==>
      |rows[i]| == |previous| && kinds[i] <= 4
    ensures |Stored(rows, kinds, previous, channels)| == (|previous| + 1) * |rows|
    ensures Rows(Stored(rows, kinds, previous, channels), |previous|, channels, |rows|, previous) == Some(rows)
    decreases |rows|
  {
    hide Filtered, Restored;
    StoredSize(rows, kinds, previous, channels);
    if rows != [] {
      var raw, stride := Stored(rows, kinds, previous, channels), |previous|;
      var f := Filtered(kinds[0], rows[0], previous, channels);
      RowFits(stride, |rows|);
      assert raw[1..1 + stride] == f;
      assert raw[1 + stride..] == Stored(rows[1..], kinds[1..], rows[0], channels);
      RestoreFiltered(kinds[0], rows[0], previous, channels, stride);
      assert rows[0][..stride] == rows[0];
      RowsOfStored(rows[1..], kinds[1..], rows[0], channels);
      assert rows == [rows[0]] + rows[1..];
    }
  }

  /** Everything that is read is the stored form of what was read. */
  lemma {:induction false} StoredOfRows(raw: Bytes, stride: nat, channels: nat, height: nat, previous: Bytes)
    returns (kinds: Bytes)
    requires |raw| == (stride + 1) * height && |previous| == stride && channels >= 1
    requires Rows(raw, stride, channels, height, previous).Some?
    ensures var rows := Rows(raw, stride, channels, height, previous).value;
      && |kinds| == |rows| == height && (forall i :: 0 <= i < height ==> |rows[i]| == stride && kinds[i] <= 4)
      && Stored(rows, kinds, previous, channels) == raw
    decreases height
  {
    hide Filtered, Restored, Rows, Stored;
    RowsUnfold(raw, stride, channels, height, previous);
    if height == 0 {
      kinds := [];
      StoredNothing(previous, channels);
    } else {
      var f, left := raw[1..1 + stride], raw[1 + stride..];
      var row := Restored(raw[0], f, previous, channels, stride);
      var rest := StoredOfRows(left, stride, channels, height - 1, row);
      var below := Rows(left, stride, channels, height - 1, row).value;
      FilterRestored(raw[0], f, previous, channels);
      kinds := [raw[0]] + rest;
      StoredFirst(raw[0], row, below, rest, previous, channels);
      assert raw == [raw[0]] + f + left;
    }
  }

  lemma StoredNothing(previous: Bytes, channels: nat)
    requires channels >= 1
    ensures Stored([], [], previous, channels) == []
  {
  }

  lemma StoredFirst(kind: Byte, row: Bytes, rows: seq<Bytes>, kinds: Bytes, previous: Bytes, channels: nat)
    requires channels >= 1 && |rows| == |kinds| && |row| == |previous| && AllWide(rows, |row|)
    ensures AllWide([row] + rows, |previous|)
    ensures Stored([row] + rows, [kind] + kinds, previous, channels)
      == [kind] + Filtered(kind, row, previous, channels) + Stored(rows, kinds, row, channels)
  {
    hide Filtered;
    var all, codes := [row] + rows, [kind] + kinds;
    assert all[1..] == rows && codes[1..] == kinds;
  }

  function Pixel(row: Bytes, x: nat, channels: nat): nat
    requires channels in {3, 4} && x + channels <= |row|
  {
    if channels == 3 then Pack(row[x], row[x + 1], row[x + 2])
    else
      BlendNearest(row[x], row[x + 3], 8);
      BlendNearest(row[x + 1], row[x + 3], 15);
      BlendNearest(row[x + 2], row[x + 3], 35);
      Pack(Blend(row[x], row[x + 3], 8), Blend(row[x + 1], row[x + 3], 15), Blend(row[x + 2], row[x + 3], 35))
  }

  function RowPixels(row: Bytes, x: nat, channels: nat): seq<nat>
    requires channels in {3, 4} && x <= |row| && (|row| - x) % channels == 0
    decreases |row| - x
  {
    if x == |row| then [] else [Pixel(row, x, channels)] + RowPixels(row, x + channels, channels)
  }

  function ImagePixels(rows: seq<Bytes>, channels: nat): seq<nat>
    requires channels in {3, 4} && forall i :: 0 <= i < |rows| ==> |rows[i]| % channels == 0
  {
    if rows == [] then [] else RowPixels(rows[0], 0, channels) + ImagePixels(rows[1..], channels)
  }

  /** Every packed pixel fits a halfword. */
  lemma PixelFits(row: Bytes, x: nat, channels: nat)
    requires channels in {3, 4} && x + channels <= |row|
    ensures Pixel(row, x, channels) < 0x1_0000
  {
    hide Pack, Blend;
    if channels == 3 {
      PackFits(row[x], row[x + 1], row[x + 2]);
    } else {
      BlendNearest(row[x], row[x + 3], 8);
      BlendNearest(row[x + 1], row[x + 3], 15);
      BlendNearest(row[x + 2], row[x + 3], 35);
      PackFits(Blend(row[x], row[x + 3], 8), Blend(row[x + 1], row[x + 3], 15), Blend(row[x + 2], row[x + 3], 35));
    }
  }

  /** One pixel of any row stored with full alpha is the packed colour itself. */
  lemma OpaquePixel(row: Bytes, x: nat)
    requires x + 4 <= |row| && row[x + 3] == 255
    ensures Pixel(row, x, 4) == Pack(row[x], row[x + 1], row[x + 2])
  {
    hide Pack, Blend;
    BlendNearest(row[x], 255, 8);
    BlendNearest(row[x + 1], 255, 15);
    BlendNearest(row[x + 2], 255, 35);
  }

  /** The byte nearest to a channel over its background. */
  predicate NearMean(value: Byte, channel: Byte, alpha: Byte, back: Byte) {
    -127 <= 255 * value - (channel * alpha + back * (255 - alpha)) <= 127
  }

  lemma NearMeanIsBlend(value: Byte, channel: Byte, alpha: Byte, back: Byte)
    requires NearMean(value, channel, alpha, back)
    ensures Blend(channel, alpha, back) == value
  {
    hide Blend;
    BlendNearest(channel, alpha, back);
  }

  /** The packed pixel, without naming the blend: three bytes are packed as they are, and of four each channel
      nearest to its mean with (8, 15, 35) at the fourth's weight. */
  lemma PixelLaws(row: Bytes, x: nat, r: Byte, g: Byte, b: Byte)
    ensures x + 3 <= |row| ==> Pixel(row, x, 3) == Pack(row[x], row[x + 1], row[x + 2])
    ensures (x + 4 <= |row| && NearMean(r, row[x], row[x + 3], 8) && NearMean(g, row[x + 1], row[x + 3], 15)
       && NearMean(b, row[x + 2], row[x + 3], 35)) ==> Pixel(row, x, 4) == Pack(r, g, b)
  {
    hide Pack, Blend, NearMean;
    if x + 4 <= |row| && NearMean(r, row[x], row[x + 3], 8) && NearMean(g, row[x + 1], row[x + 3], 15)
       && NearMean(b, row[x + 2], row[x + 3], 35) {
      NearMeanIsBlend(r, row[x], row[x + 3], 8);
      NearMeanIsBlend(g, row[x + 1], row[x + 3], 15);
      NearMeanIsBlend(b, row[x + 2], row[x + 3], 35);
    }
  }

  /** Pixel i of a row starts at byte i * channels. */
  lemma {:induction false} RowPixelAt(row: Bytes, x: nat, channels: nat, i: nat)
    requires channels in {3, 4} && x <= |row| && (|row| - x) % channels == 0 && x + channels * i < |row|
    ensures x + channels * i + channels <= |row| && i < |RowPixels(row, x, channels)|
    ensures RowPixels(row, x, channels)[i] == Pixel(row, x + channels * i, channels)
    decreases |row| - x
  {
    hide Pixel;
    OnePixel(row, x, channels);
    if i > 0 {
      assert x + channels * i == x + channels + channels * (i - 1) by { Steps(channels, i); }
      RowPixelAt(row, x + channels, channels, i - 1);
    }
  }

  lemma Steps(channels: nat, i: nat)
    requires i > 0
    ensures channels * i == channels + channels * (i - 1)
  {
  }

  lemma OnePixel(row: Bytes, x: nat, channels: nat)
    requires channels in {3, 4} && x < |row| && (|row| - x) % channels == 0
    ensures x + channels <= |row| && (|row| - (x + channels)) % channels == 0
    ensures RowPixels(row, x, channels) == [Pixel(row, x, channels)] + RowPixels(row, x + channels, channels)
  {
    hide Pixel;
    if channels == 3 { Remaining3(|row| - x); } else { Remaining4(|row| - x); }
  }

  lemma Remaining3(left: nat)
    requires left > 0 && left % 3 == 0
    ensures left >= 3 && (left - 3) % 3 == 0
  {
  }

  lemma Remaining4(left: nat)
    requires left > 0 && left % 4 == 0
    ensures left >= 4 && (left - 4) % 4 == 0
  {
  }

  method PackRow(row: Bytes, channels: nat) returns (pixels: seq<nat>)
    requires channels in {3, 4} && |row| % channels == 0
    ensures pixels == RowPixels(row, 0, channels)
  {
    hide Pixel;
    pixels := [];
    var x := 0;
    while x < |row|
      invariant x <= |row| && (|row| - x) % channels == 0
      invariant RowPixels(row, 0, channels) == pixels + RowPixels(row, x, channels)
    {
      pixels := pixels + [Pixel(row, x, channels)];
      x := x + channels;
    }
  }

  /** The decoder's loop: it restores each row from the previous one and packs it. */
  method DecodeRows(raw: Bytes, stride: nat, channels: nat, height: nat) returns (r: Option<seq<nat>>)
    requires Geometry(stride, channels) && |raw| == (stride + 1) * height
    ensures var rows := Rows(raw, stride, channels, height, seq(stride, _ => 0));
      && (r.Some? <==> rows.Some?)
      && (r.Some? ==> AllWide(rows.value, stride) && r.value == ImagePixels(rows.value, channels))
  {
    hide Restored, Rows, RowPixels, ImagePixels, Filtered, Stored, Continues, AllWide, Prepend;
    var pixels: seq<nat>, previous: Bytes := [], seq(stride, _ => 0);
    ghost var blank, left := previous, raw;
    ghost var whole := Rows(raw, stride, channels, height, blank);
    Start(raw, stride, channels, height, blank);
    assert raw[0..] == raw;
    var y, offset := 0, 0;
    while y < height
      invariant 0 <= y <= height && 0 <= offset <= |raw| && left == raw[offset..]
      invariant |left| == (stride + 1) * (height - y) && |previous| == stride
      invariant Continues(whole, Rows(left, stride, channels, height - y, previous), pixels, stride, channels)
    {
      RowsUnfold(left, stride, channels, height - y, previous);
      var kind := raw[offset];
      if kind > 4 {
        Refuse(whole, pixels, stride, channels);
        return None;
      }
      var stored := raw[offset + 1..offset + 1 + stride];
      assert stored == left[1..1 + stride] && left[1 + stride..] == raw[offset + 1 + stride..];
      var row, packed := RestoreAndPack(stored, kind, previous, channels);
      OneRowOn(whole, row, Rows(left[1 + stride..], stride, channels, height - (y + 1), row), pixels, stride, channels);
      pixels := pixels + packed;
      previous, left := row, left[1 + stride..];
      y, offset := y + 1, offset + stride + 1;
    }
    RowsUnfold(left, stride, channels, 0, previous);
    Finish(whole, pixels, stride, channels);
    r := Some(pixels);
  }

  /** One row: a mutable copy of its stored bytes, restored in place and packed. */
  method RestoreAndPack(stored: Bytes, kind: int, previous: Bytes, channels: nat) returns (row: Bytes, packed: seq<nat>)
    requires |stored| == |previous| && Geometry(|stored|, channels)
    ensures row == Restored(kind, stored, previous, channels, |stored|) && packed == RowPixels(row, 0, channels)
  {
    hide Restored, RowPixels;
    var bytes := new Byte[|stored|](i requires 0 <= i < |stored| => stored[i]);
    assert bytes[..] == stored;
    RestoreRow(bytes, kind, previous, channels);
    row := bytes[..];
    packed := PackRow(row, channels);
  }

  /** The pixels so far, with those of the rows still to come, are the image's. */
  ghost predicate Continues(whole: Option<seq<Bytes>>, rest: Option<seq<Bytes>>, pixels: seq<nat>, stride: nat,
    channels: nat) {
    && Geometry(stride, channels)
    && (whole.Some? <==> rest.Some?)
    && (whole.Some? ==> AllWide(whole.value, stride) && AllWide(rest.value, stride))
    && (whole.Some? ==> ImagePixels(whole.value, channels) == pixels + ImagePixels(rest.value, channels))
  }

  ghost predicate AllWide(rows: seq<Bytes>, stride: nat) { forall i :: 0 <= i < |rows| ==> |rows[i]| == stride }

  lemma Start(raw: Bytes, stride: nat, channels: nat, height: nat, previous: Bytes)
    requires Geometry(stride, channels) && |raw| == (stride + 1) * height && |previous| == stride
    ensures var whole := Rows(raw, stride, channels, height, previous); Continues(whole, whole, [], stride, channels)
  {
    hide Rows, ImagePixels, Stored;
    var whole := Rows(raw, stride, channels, height, previous);
    if whole.Some? {
      var kinds := StoredOfRows(raw, stride, channels, height, previous);
      assert AllWide(whole.value, stride);
      assert [] + ImagePixels(whole.value, channels) == ImagePixels(whole.value, channels);
    }
  }

  lemma Finish(whole: Option<seq<Bytes>>, pixels: seq<nat>, stride: nat, channels: nat)
    requires Continues(whole, Some([]), pixels, stride, channels)
    ensures whole.Some? && AllWide(whole.value, stride) && pixels == ImagePixels(whole.value, channels)
  {
    assert pixels + [] == pixels;
  }

  lemma Refuse(whole: Option<seq<Bytes>>, pixels: seq<nat>, stride: nat, channels: nat)
    requires Continues(whole, None, pixels, stride, channels)
    ensures whole.None?
  {
  }

  lemma RowsUnfold(raw: Bytes, stride: nat, channels: nat, height: nat, previous: Bytes)
    requires |raw| == (stride + 1) * height && |previous| == stride && channels >= 1
    ensures height == 0 ==> Rows(raw, stride, channels, height, previous) == Some([])
    ensures height > 0 ==> (stride + 1) * (height - 1) == |raw| - stride - 1 >= 0
    ensures height > 0 && raw[0] > 4 ==> Rows(raw, stride, channels, height, previous).None?
    ensures height > 0 && raw[0] <= 4 ==>
      var row := Restored(raw[0], raw[1..1 + stride], previous, channels, stride);
      Rows(raw, stride, channels, height, previous) ==
        Prepend([row], Rows(raw[1 + stride..], stride, channels, height - 1, row))
  {
    hide Restored;
    if height > 0 { RowFits(stride, height); }
  }

  lemma OneRowOn(whole: Option<seq<Bytes>>, row: Bytes, rest: Option<seq<Bytes>>, pixels: seq<nat>, stride: nat,
    channels: nat)
    requires Continues(whole, Prepend([row], rest), pixels, stride, channels) && |row| == stride
      && Geometry(stride, channels)
    ensures Continues(whole, rest, pixels + RowPixels(row, 0, channels), stride, channels)
  {
    hide RowPixels;
    if rest.Some? {
      var rows := [row] + rest.value;
      forall i | 0 <= i < |rest.value| ensures |rest.value[i]| == stride { assert rows[i + 1] == rest.value[i]; }
      assert rows[1..] == rest.value;
    }
  }
}
