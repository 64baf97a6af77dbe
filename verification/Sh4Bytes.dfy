/** The data memory of the SH-4 machine, byte by byte. */
module Sh4Bytes {
  import opened Words
  import opened LittleEndian
  import opened Sh4

  function Unit(lane: int): int {
    if lane == 0 then 1 else if lane == 1 then 0x100 else if lane == 2 then 0x1_0000 else 0x100_0000
  }

  /** The byte at a place of the physical space. */
  function ByteIn(mem: Memory, key: int): Byte { Peek(mem, key - key % 4) / Unit(key % 4) % 0x100 }

  lemma KeyAligned(a: Word)
    ensures Key(a) % 4 == a % 4
  {
    hide Physical;
    PhysicalIsMod(a);
  }

  function Joined(b0: Byte, b1: Byte, b2: Byte, b3: Byte): Word { b0 + 0x100 * b1 + 0x1_0000 * b2 + 0x100_0000 * b3 }

  lemma WordOfFour(w: Word)
    ensures w == Joined(w % 0x100, w / 0x100 % 0x100, w / 0x1_0000 % 0x100, w / 0x100_0000 % 0x100)
  {
    assert w / 0x1_0000 == w / 0x100 / 0x100 && w / 0x100_0000 == w / 0x1_0000 / 0x100;
  }

  lemma FourOfWord(b0: Byte, b1: Byte, b2: Byte, b3: Byte)
    ensures var w := Joined(b0, b1, b2, b3);
      w % 0x100 == b0 && w / 0x100 % 0x100 == b1 && w / 0x1_0000 % 0x100 == b2 && w / 0x100_0000 % 0x100 == b3
  {
    var w := Joined(b0, b1, b2, b3);
    LowDigit(b0, b1 + 0x100 * b2 + 0x1_0000 * b3);
    LowDigit(b1, b2 + 0x100 * b3);
    LowDigit(b2, b3);
    assert w / 0x100 == b1 + 0x100 * (b2 + 0x100 * b3);
    assert w / 0x1_0000 == w / 0x100 / 0x100 && w / 0x100_0000 == w / 0x1_0000 / 0x100;
  }

  /** A word in memory is its four bytes. */
  lemma PeekBytes(mem: Memory, key: int)
    requires key % 4 == 0
    ensures Peek(mem, key) ==
      Joined(ByteIn(mem, key), ByteIn(mem, key + 1), ByteIn(mem, key + 2), ByteIn(mem, key + 3))
  {
    hide Peek, Joined;
    WordOfFour(Peek(mem, key));
  }

  /** Aligned loads join the bytes there. */
  lemma LoadBytes(mem: Memory, a: Word, size: int)
    requires size in {1, 2, 4} && a % size == 0
    ensures var key := Key(a); Load(mem, a, size) == Some(
      if size == 1 then ByteIn(mem, key) else if size == 2 then ByteIn(mem, key) + 0x100 * ByteIn(mem, key + 1)
      else Joined(ByteIn(mem, key), ByteIn(mem, key + 1), ByteIn(mem, key + 2), ByteIn(mem, key + 3)))
  {
    hide Key, Peek, Load, ByteIn, Joined;
    KeyAligned(a);
    if size == 4 { LoadFour(mem, a); } else if size == 2 { LoadTwo(mem, a); } else { LoadOne(mem, a); }
  }

  lemma LoadFour(mem: Memory, a: Word)
    requires a % 4 == 0
    ensures Load(mem, a, 4) == Some(
      Joined(ByteIn(mem, Key(a)), ByteIn(mem, Key(a) + 1), ByteIn(mem, Key(a) + 2), ByteIn(mem, Key(a) + 3)))
  {
    hide Key, Peek, ByteIn, Joined;
    KeyAligned(a);
    PeekBytes(mem, Key(a));
  }

  lemma LoadTwo(mem: Memory, a: Word)
    requires a % 2 == 0
    ensures Load(mem, a, 2) == Some(ByteIn(mem, Key(a)) + 0x100 * ByteIn(mem, Key(a) + 1))
  {
    hide Key, Peek, Load, ByteIn;
    EvenKey(a);
    if Key(a) % 4 == 0 { LowHalf(mem, a, Key(a)); } else { HighHalf(mem, a, Key(a) - 2); }
  }

  /** An even place is the lower or the upper half of its word. */
  lemma EvenKey(a: Word)
    requires a % 2 == 0
    ensures Key(a) % 4 in {0, 2}
  {
    hide Key;
    KeyAligned(a);
    EvenLane(a);
  }

  lemma EvenLane(a: int)
    ensures a % 2 == 0 ==> a % 4 in {0, 2}
  {
    assert a % 2 == 0 ==> a == 2 * (a / 2);
  }

  lemma LowHalf(mem: Memory, a: Word, place: int)
    requires a % 2 == 0 && Key(a) == place && place % 4 == 0
    ensures Load(mem, a, 2) == Some(ByteIn(mem, place) + 0x100 * ByteIn(mem, place + 1))
  {
    hide Key, Peek;
    HalfBytes(Peek(mem, place));
  }

  lemma HighHalf(mem: Memory, a: Word, place: int)
    requires a % 2 == 0 && Key(a) == place + 2 && place % 4 == 0
    ensures Load(mem, a, 2) == Some(ByteIn(mem, place + 2) + 0x100 * ByteIn(mem, place + 3))
  {
    hide Key, Peek;
    HalfBytes(Peek(mem, place));
  }

  lemma LoadOne(mem: Memory, a: Word)
    ensures Load(mem, a, 1) == Some(ByteIn(mem, Key(a)))
  {
    hide Key, Peek;
  }

  lemma HalfBytes(w: Word)
    ensures w % 0x1_0000 == w % 0x100 + 0x100 * (w / 0x100 % 0x100)
    ensures w / 0x1_0000 % 0x1_0000 == w / 0x1_0000 % 0x100 + 0x100 * (w / 0x100_0000 % 0x100)
  {
    assert w / 0x100_0000 == w / 0x1_0000 / 0x100;
  }

  /** Storing one halfword replaces its two bytes and no other. */
  lemma StoreHalf(mem: Memory, a: Word, value: Word, at: int)
    requires a % 2 == 0
    ensures Store(mem, a, value, 2).Some?
    ensures ByteIn(Store(mem, a, value, 2).value, at) ==
      if at == Key(a) then value % 0x100 else if at == Key(a) + 1 then value / 0x100 % 0x100 else ByteIn(mem, at)
  {
    hide Key, Peek, Joined, Store, ByteIn;
    EvenKey(a);
    if Key(a) % 4 == 0 { StoreLow(mem, a, Key(a), value, at); } else { StoreHigh(mem, a, Key(a) - 2, value, at); }
  }

  lemma StoreLow(mem: Memory, a: Word, place: int, value: Word, at: int)
    requires a % 2 == 0 && Key(a) == place && place % 4 == 0
    ensures Store(mem, a, value, 2).Some?
    ensures ByteIn(Store(mem, a, value, 2).value, at) ==
      if at == place then value % 0x100 else if at == place + 1 then value / 0x100 % 0x100 else ByteIn(mem, at)
  {
    hide Key, Peek, Joined, ByteIn, Wrap;
    var w := Peek(mem, place);
    var b0, b1, b2, b3 := ByteIn(mem, place), ByteIn(mem, place + 1), ByteIn(mem, place + 2), ByteIn(mem, place + 3);
    KeptBytes(mem, place);
    HalvesOf(w, value, b0, b1, b2, b3);
    LaneStored(w, value, b0, b1, b2, b3, value % 0x100, value / 0x100 % 0x100);
    ReplacedBytes(mem, place, value % 0x100, value / 0x100 % 0x100, b2, b3, at);
  }

  lemma StoreHigh(mem: Memory, a: Word, place: int, value: Word, at: int)
    requires a % 2 == 0 && Key(a) == place + 2 && place % 4 == 0
    ensures Store(mem, a, value, 2).Some?
    ensures ByteIn(Store(mem, a, value, 2).value, at) ==
      if at == place + 2 then value % 0x100 else if at == place + 3 then value / 0x100 % 0x100 else ByteIn(mem, at)
  {
    hide Key, Peek, Joined, ByteIn, Wrap;
    var w := Peek(mem, place);
    var b0, b1, b2, b3 := ByteIn(mem, place), ByteIn(mem, place + 1), ByteIn(mem, place + 2), ByteIn(mem, place + 3);
    KeptBytes(mem, place);
    HalvesOf(w, value, b0, b1, b2, b3);
    LaneStored(w, value, b0, b1, b2, b3, value % 0x100, value / 0x100 % 0x100);
    ReplacedBytes(mem, place, b0, b1, value % 0x100, value / 0x100 % 0x100, at);
  }

  lemma HalvesOf(w: Word, value: Word, b0: Byte, b1: Byte, b2: Byte, b3: Byte)
    requires b0 == w % 0x100 && b1 == w / 0x100 % 0x100 && b2 == w / 0x1_0000 % 0x100 && b3 == w / 0x100_0000 % 0x100
    ensures w == Joined(b0, b1, b2, b3) && value % 0x1_0000 == value % 0x100 + 0x100 * (value / 0x100 % 0x100)
    ensures w % 0x1_0000 == b0 + 0x100 * b1 && w / 0x1_0000 % 0x1_0000 == b2 + 0x100 * b3
  {
    hide Joined;
    WordOfFour(w);
    HalfBytes(w);
    HalfBytes(value);
  }

  /** The bytes of a word just put in place. */
  lemma ReplacedBytes(mem: Memory, place: int, b0: Byte, b1: Byte, b2: Byte, b3: Byte, at: int)
    requires place % 4 == 0
    ensures ByteIn(mem[place := Joined(b0, b1, b2, b3)], at) ==
      if at == place then b0 else if at == place + 1 then b1 else if at == place + 2 then b2
      else if at == place + 3 then b3 else ByteIn(mem, at)
  {
    hide Peek, Joined, ByteIn;
    FourOfWord(b0, b1, b2, b3);
    Replaced(mem, place, Joined(b0, b1, b2, b3), at);
  }

  lemma KeptBytes(mem: Memory, place: int)
    requires place % 4 == 0
    ensures var w := Peek(mem, place);
      && ByteIn(mem, place) == w % 0x100 && ByteIn(mem, place + 1) == w / 0x100 % 0x100
      && ByteIn(mem, place + 2) == w / 0x1_0000 % 0x100 && ByteIn(mem, place + 3) == w / 0x100_0000 % 0x100
  {
    hide Peek;
  }

  lemma LaneStored(w: Word, value: Word, b0: Byte, b1: Byte, b2: Byte, b3: Byte, low: Byte, high: Byte)
    requires w == Joined(b0, b1, b2, b3) && value % 0x1_0000 == low + 0x100 * high
    requires w % 0x1_0000 == b0 + 0x100 * b1 && w / 0x1_0000 % 0x1_0000 == b2 + 0x100 * b3
    ensures Wrap(w - w / 1 % 0x1_0000 * 1 + value % 0x1_0000 * 1) == Joined(low, high, b2, b3)
    ensures Wrap(w - w / 0x1_0000 % 0x1_0000 * 0x1_0000 + value % 0x1_0000 * 0x1_0000) == Joined(b0, b1, low, high)
  {
  }

  lemma Replaced(mem: Memory, place: int, w: Word, at: int)
    requires place % 4 == 0
    ensures ByteIn(mem[place := w], at) ==
      if place <= at < place + 4 then w / Unit(at - place) % 0x100 else ByteIn(mem, at)
  {
  }

  /** Storing one word replaces its four bytes and no other. */
  lemma StoreLong(mem: Memory, a: Word, value: Word, at: int)
    requires a % 4 == 0
    ensures Store(mem, a, value, 4).Some?
    ensures ByteIn(Store(mem, a, value, 4).value, at) ==
      if Key(a) <= at < Key(a) + 4 then value / Unit(at - Key(a)) % 0x100 else ByteIn(mem, at)
  {
    hide Key, Unit;
    KeyAligned(a);
    Replaced(mem, Key(a), value, at);
  }
}
