/** 32-bit words as bounded integers, with the bitwise operators the SH-4 code
    and its checkers use.  Every operator is defined one bit at a time. */
module Words {

  type Word = x: int | 0 <= x < 0x1_0000_0000
  type Byte = x: int | 0 <= x < 256
  type Nibble = x: int | 0 <= x < 16

  datatype Option<+T> = None | Some(value: T)

  /** Known results in front of those still to be had; a refusal there refuses all. */
  function Prepend<T>(done: seq<T>, rest: Option<seq<T>>): Option<seq<T>> {
    match rest case None => None case Some(more) => Some(done + more)
  }

  lemma PrependTwice<T>(a: seq<T>, b: seq<T>, rest: Option<seq<T>>)
    ensures Prepend(a, Prepend(b, rest)) == Prepend(a + b, rest)
  {
    if rest.Some? { assert a + (b + rest.value) == a + b + rest.value; }
  }

  lemma PrependEnds<T>(a: seq<T>, rest: Option<seq<T>>)
    ensures Prepend([], rest) == rest && Prepend(a, Some([])) == Some(a)
  {
    if rest.Some? { assert [] + rest.value == rest.value; }
    assert a + [] == a;
  }

  /** Reduction modulo 2^32, by repeated correction so that proofs stay linear. */
  function Wrap(x: int): (w: Word)
    decreases x < 0, if x < 0 then -x else x
  {
    if x < 0 then Wrap(x + 0x1_0000_0000)
    else if x >= 0x1_0000_0000 then Wrap(x - 0x1_0000_0000)
    else x
  }

  function Plus(a: int, b: int): Word { Wrap(a + b) }

  function Minus(a: int, b: int): Word { Wrap(a - b) }

  /** The 29 physical address bits that P0-P3 share: `a & 0x1fffffff`. */
  function Physical(a: int): (p: int)
    ensures 0 <= p < 0x2000_0000
    decreases a < 0, if a < 0 then -a else a
  {
    if a < 0 then Physical(a + 0x2000_0000)
    else if a >= 0x2000_0000 then Physical(a - 0x2000_0000)
    else a
  }

  lemma {:induction false} WrapIsMod(x: int)
    ensures Wrap(x) == x % 0x1_0000_0000
    decreases x < 0, if x < 0 then -x else x
  {
    if x < 0 { WrapIsMod(x + 0x1_0000_0000); }
    else if x >= 0x1_0000_0000 { WrapIsMod(x - 0x1_0000_0000); }
  }

  /** Wrapping does not change alignment. */
  lemma {:induction false} WrapAlignment(x: int)
    ensures Wrap(x) % 4 == x % 4
    decreases x < 0, if x < 0 then -x else x
  {
    if x < 0 {
      WrapAlignment(x + 0x1_0000_0000);
      PlusFours(x, 0x4000_0000);
    } else if x >= 0x1_0000_0000 {
      WrapAlignment(x - 0x1_0000_0000);
      PlusFours(x, -0x4000_0000);
    }
  }

  lemma PlusFours(x: int, q: int)
    ensures (x + 4 * q) % 4 == x % 4
  {
    assert x + 4 * q == 4 * (x / 4 + q) + x % 4;
  }

  lemma {:induction false} PhysicalIsMod(a: int)
    ensures Physical(a) == a % 0x2000_0000
    decreases a < 0, if a < 0 then -a else a
  {
    if a < 0 { PhysicalIsMod(a + 0x2000_0000); }
    else if a >= 0x2000_0000 { PhysicalIsMod(a - 0x2000_0000); }
  }

  /** Wrapping an address does not change where it is physically. */
  lemma PhysicalWrap(a: int)
    ensures Physical(Wrap(a)) == Physical(a)
  {
    hide Wrap, Physical;
    WrapIsMod(a);
    PhysicalIsMod(a);
    PhysicalIsMod(Wrap(a));
  }

  lemma PhysicalShift(a: int, b: int, k: int)
    requires Physical(a) == Physical(b)
    ensures Physical(a + k) == Physical(b + k)
  {
    hide Physical;
    PhysicalIsMod(a);
    PhysicalIsMod(b);
    PhysicalIsMod(a + k);
    PhysicalIsMod(b + k);
  }

  /** Addresses with the same physical place differ by a whole number of 512 MiB windows. */
  lemma PhysicalWindows(a: int, b: int) returns (q: int)
    requires Physical(a) == Physical(b)
    ensures a == b + 0x2000_0000 * q
  {
    hide Physical;
    PhysicalIsMod(a);
    PhysicalIsMod(b);
    q := a / 0x2000_0000 - b / 0x2000_0000;
  }

  lemma PhysicalPeriod(a: int, q: int)
    ensures Physical(a + 0x2000_0000 * q) == Physical(a)
  {
    hide Physical;
    PhysicalIsMod(a);
    PhysicalIsMod(a + 0x2000_0000 * q);
  }

  lemma WrapPlus(a: int, b: int, c: int)
    ensures Plus(Plus(a, b), c) == Plus(a, b + c)
  {
    hide Wrap;
    WrapIsMod(a + b);
    WrapIsMod(Wrap(a + b) + c);
    WrapIsMod(a + b + c);
  }

  function Signed8(x: Byte): int {
    if x < 0x80 then x else x - 0x100
  }

  function Signed16(x: int): int {
    if x < 0x8000 then x else x - 0x1_0000
  }

  function Signed32(x: Word): int {
    if x < 0x8000_0000 then x else x - 0x1_0000_0000
  }

  /** `a >> k`. */
  function Shift(a: nat, k: nat): nat {
    if k == 0 then a else Shift(a / 2, k - 1)
  }

  function Or(a: nat, b: nat): nat
    decreases a + b
  {
    if a == 0 && b == 0 then 0
    else 2 * Or(a / 2, b / 2) + (if a % 2 == 1 || b % 2 == 1 then 1 else 0)
  }

  function And(a: nat, b: nat): nat
    decreases a + b
  {
    if a == 0 && b == 0 then 0
    else 2 * And(a / 2, b / 2) + (if a % 2 == 1 && b % 2 == 1 then 1 else 0)
  }

  function Xor(a: nat, b: nat): nat
    decreases a + b
  {
    if a == 0 && b == 0 then 0
    else 2 * Xor(a / 2, b / 2) + (if a % 2 != b % 2 then 1 else 0)
  }

  function Pow2(k: nat): (p: nat)
    ensures p >= 1
  {
    if k == 0 then 1 else 2 * Pow2(k - 1)
  }

  lemma {:induction false} BitwiseBound(a: nat, b: nat, k: nat)
    requires a < Pow2(k) && b < Pow2(k)
    ensures Or(a, b) < Pow2(k) && And(a, b) < Pow2(k) && Xor(a, b) < Pow2(k)
  {
    if k > 0 {
      BitwiseBound(a / 2, b / 2, k - 1);
    }
  }

  lemma Pow2Word()
    ensures Pow2(32) == 0x1_0000_0000
  {
    assert Pow2(8) == 256;
    assert Pow2(16) == 65536;
    assert Pow2(24) == 0x100_0000;
  }

  function OrWord(a: Word, b: Word): Word {
    Pow2Word(); BitwiseBound(a, b, 32); Or(a, b)
  }

  function AndWord(a: Word, b: Word): Word {
    Pow2Word(); BitwiseBound(a, b, 32); And(a, b)
  }

  function XorWord(a: Word, b: Word): Word {
    Pow2Word(); BitwiseBound(a, b, 32); Xor(a, b)
  }

  lemma {:induction false} OrZero(a: nat)
    ensures Or(a, 0) == a
  {
    if a > 0 { OrZero(a / 2); }
  }

  lemma {:induction false} OrShift(a: nat, b: nat, k: nat)
    ensures Shift(Or(a, b), k) == Or(Shift(a, k), Shift(b, k))
  {
    if k > 0 { OrShift(a / 2, b / 2, k - 1); }
  }

  lemma {:induction false} ShiftCompose(a: nat, j: nat, k: nat)
    ensures Shift(a, j + k) == Shift(Shift(a, j), k)
  {
    if j > 0 { ShiftCompose(a / 2, j - 1, k); }
  }

  lemma {:induction false} ShiftZero(k: nat)
    ensures Shift(0, k) == 0
  {
    if k > 0 { ShiftZero(k - 1); }
  }

  /** Three whole bytes and five more bits. */
  lemma ShiftBytes(a: nat, b: nat, c: nat, d: nat)
    requires a / 256 == b && b / 256 == c && c / 256 == d
    ensures Shift(a, 29) == d / 32
  {
    ShiftByte(a); ShiftByte(b); ShiftByte(c);
    ShiftCompose(a, 8, 21); ShiftCompose(b, 8, 13); ShiftCompose(c, 8, 5);
    ShiftNibble(d); ShiftCompose(d, 4, 1);
  }

  lemma ShiftTwo(a: nat)
    ensures Shift(a, 2) == a / 4
  {
    assert Shift(a / 2, 1) == Shift(a / 2 / 2, 0);
  }

  lemma ShiftNibble(a: nat)
    ensures Shift(a, 4) == a / 16
  {
    ShiftCompose(a, 2, 2);
    ShiftTwo(a);
    ShiftTwo(a / 4);
  }

  lemma ShiftByte(a: nat)
    ensures Shift(a, 8) == a / 256
  {
    ShiftCompose(a, 4, 4);
    ShiftNibble(a); ShiftNibble(a / 16);
  }

  lemma {:induction false} OrCommutes(a: nat, b: nat)
    ensures Or(a, b) == Or(b, a)
    decreases a + b
  {
    if a > 0 || b > 0 { OrCommutes(a / 2, b / 2); }
  }

  /** Or-ing in a clear bit adds it. */
  lemma {:induction false} OrFreshBit(a: nat, k: nat)
    requires Shift(a, k) % 2 == 0
    ensures Or(a, Pow2(k)) == a + Pow2(k)
  {
    if k > 0 { OrFreshBit(a / 2, k - 1); } else { OrZero(a / 2); }
  }

  /** Or-ing in a set bit changes nothing. */
  lemma {:induction false} OrSetBit(a: nat, k: nat)
    requires Shift(a, k) % 2 == 1
    ensures Or(a, Pow2(k)) == a
  {
    if k > 0 { OrSetBit(a / 2, k - 1); } else { OrZero(a / 2); }
  }

  /** Bits at and above position k do not change when a mask below 2^k is or-ed in. */
  lemma OrKeepsHighBits(a: nat, b: nat, k: nat)
    requires Shift(b, k) == 0
    ensures Shift(Or(a, b), k) == Shift(a, k)
  {
    OrShift(a, b, k);
    OrZero(Shift(a, k));
  }

  /** The lowest bit is the only one `x & 1` can keep. */
  lemma AndOne(a: nat)
    ensures And(a, 1) == a % 2
  {
    AndZero(a / 2);
  }

  lemma {:induction false} AndZero(a: nat)
    ensures And(a, 0) == 0
  {
    if a > 0 { AndZero(a / 2); }
  }
}
