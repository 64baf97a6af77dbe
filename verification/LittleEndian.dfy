/** Halfwords and words in little-endian byte sequences. */
module LittleEndian {
  import opened Words

  function HalfAt(b: seq<Byte>, at: nat): nat
    requires at + 2 <= |b|
  {
    var low: int, high: int := b[at], b[at + 1];
    low + 0x100 * high
  }

  function WordAt(b: seq<Byte>, at: nat): (w: Word)
    requires at + 4 <= |b|
  {
    HalfAt(b, at) + 0x1_0000 * HalfAt(b, at + 2)
  }

  function ByteOf(w: Word, k: int): Byte
    requires 0 <= k < 4
    decreases k
  {
    if k == 0 then w % 0x100 else ByteOf(w / 0x100, k - 1)
  }

  lemma LowDigit(low: Byte, rest: nat)
    ensures (low + 0x100 * rest) % 0x100 == low && (low + 0x100 * rest) / 0x100 == rest
  {
  }

  /** The bytes of a word built from four bytes, and back. */
  lemma Digits(w: Word, b0: Byte, b1: Byte, b2: Byte, b3: Byte)
    ensures w == b0 + 0x100 * (b1 + 0x100 * (b2 + 0x100 * b3))
      <==> ByteOf(w, 0) == b0 && ByteOf(w, 1) == b1 && ByteOf(w, 2) == b2 && ByteOf(w, 3) == b3
  {
    var w1 := w / 0x100;
    var w2 := w1 / 0x100;
    var w3 := w2 / 0x100;
    assert w == w % 0x100 + 0x100 * w1 && w1 == w1 % 0x100 + 0x100 * w2 && w2 == w2 % 0x100 + 0x100 * w3
      && w3 % 0x100 == w3;
    assert ByteOf(w, 1) == ByteOf(w1, 0) && ByteOf(w, 2) == ByteOf(w1, 1) == ByteOf(w2, 0);
    assert ByteOf(w, 3) == ByteOf(w1, 2) == ByteOf(w2, 1) == ByteOf(w3, 0);
    LowDigit(b0, b1 + 0x100 * (b2 + 0x100 * b3));
    LowDigit(b1, b2 + 0x100 * b3);
    LowDigit(b2, b3);
  }

  lemma WordOfBytes(b: seq<Byte>, at: nat, w: Word)
    requires at + 4 <= |b| && forall k :: 0 <= k < 4 ==> b[at + k] == ByteOf(w, k)
    ensures WordAt(b, at) == w
  {
    hide ByteOf;
    assert b[at + 0] == ByteOf(w, 0) && b[at + 1] == ByteOf(w, 1) && b[at + 2] == ByteOf(w, 2)
      && b[at + 3] == ByteOf(w, 3);
    Digits(w, b[at], b[at + 1], b[at + 2], b[at + 3]);
  }

  lemma BytesOfWord(b: seq<Byte>, at: nat, k: int)
    requires at + 4 <= |b| && 0 <= k < 4
    ensures ByteOf(WordAt(b, at), k) == b[at + k]
  {
    hide ByteOf;
    Digits(WordAt(b, at), b[at], b[at + 1], b[at + 2], b[at + 3]);
  }

  /** A slice of a slice. */
  lemma SliceOfSlice<T>(b: seq<T>, from: nat, to: nat, low: nat, high: nat)
    requires from <= to <= |b| && low <= high <= to - from
    ensures b[from..to][low..high] == b[from + low..from + high]
  {
    var whole, part := b[from..to], b[from + low..from + high];
    forall k | 0 <= k < high - low ensures whole[low..high][k] == part[k] {
      assert whole[low + k] == b[from + (low + k)];
    }
  }

  lemma SliceWord(b: seq<Byte>, from: nat, to: nat, at: int)
    requires from <= at && at + 4 <= to <= |b|
    ensures WordAt(b[from..to], at - from) == WordAt(b, at)
  {
  }

  /** A word's bytes. */
  function Le(w: Word): (b: seq<Byte>)
    ensures |b| == 4
  {
    [ByteOf(w, 0), ByteOf(w, 1), ByteOf(w, 2), ByteOf(w, 3)]
  }

  lemma LeIsWord(b: seq<Byte>, at: nat, w: Word)
    requires at + 4 <= |b|
    ensures WordAt(b, at) == w <==> b[at..at + 4] == Le(w)
  {
    hide ByteOf;
    Digits(w, b[at], b[at + 1], b[at + 2], b[at + 3]);
    assert b[at..at + 4] == [b[at], b[at + 1], b[at + 2], b[at + 3]];
  }

  /** A halfword's bytes. */
  function Le16(h: nat): (b: seq<Byte>)
    requires h < 0x1_0000
    ensures |b| == 2
  {
    [h % 0x100, h / 0x100]
  }

  lemma Le16IsHalf(b: seq<Byte>, at: nat, h: nat)
    requires at + 2 <= |b| && h < 0x1_0000
    ensures HalfAt(b, at) == h <==> b[at..at + 2] == Le16(h)
  {
    assert b[at..at + 2] == [b[at], b[at + 1]];
  }
}
