/** SH-4 opcodes as their four hexadecimal digits, and the classes of opcode that
    every dispatcher and audit tells apart. */
module Opcodes {
  import opened Words

  datatype Opcode = Opcode(top: Nibble, n: Nibble, m: Nibble, low: Nibble) {
    function Imm8(): Byte { 16 * m + low }
    function Disp12(): int { 256 * n + Imm8() }
    function SignedDisp12(): int {
      if Disp12() < 0x800 then Disp12() else Disp12() - 0x1000
    }
  }

  const NOP: Opcode := Opcode(0, 0, 0, 9)

  predicate PcRelative(op: Opcode) {
    op.top == 9 || op.top == 13 || (op.top == 12 && op.n == 7)
  }

  predicate ShortBranch(op: Opcode) { op.top == 8 && op.n in {9, 11, 13, 15} }

  predicate DelayedBranch(op: Opcode) {
    || op.top == 10 || op.top == 11
    || (op.top == 8 && op.n in {13, 15})
    || (op.top == 4 && op.Imm8() in {0x0b, 0x2b})
    || (op.top == 0 && op.Imm8() in {0x03, 0x23})
    || op == Opcode(0, 0, 0, 11) || op == Opcode(0, 0, 2, 11)
  }

  /** Instructions that raise the slot-illegal exception in a delay slot. */
  predicate SlotIllegal(op: Opcode) {
    || PcRelative(op) || DelayedBranch(op)
    || (op.top == 8 && op.n in {9, 11}) || (op.top == 12 && op.n == 3)
    || (op.top == 4 && op.Imm8() in {0x0e, 0x07})
    || op == Opcode(15, 15, 15, 13)
  }

  predicate Branches(op: Opcode) { DelayedBranch(op) || ShortBranch(op) }

  predicate Calls(op: Opcode) {
    op.top == 11 || (op.top == 4 && op.Imm8() == 0x0b) || (op.top == 0 && op.Imm8() == 0x03)
  }

  /** BRA, BSR, JMP, JSR and RTS. */
  predicate Unconditional(op: Opcode) {
    op.top in {10, 11} || (op.top == 4 && op.Imm8() in {0x0b, 0x2b}) || op == Opcode(0, 0, 0, 11)
  }

  function OpcodeOf(first: Byte, second: Byte): Opcode {
    Opcode(second / 16, second % 16, first / 16, first % 16)
  }

  /** An opcode as a halfword. */
  function Number(op: Opcode): nat { 0x1000 * op.top + 0x100 * op.n + 0x10 * op.m + op.low }

  lemma LowNibble(low: Nibble, rest: nat)
    ensures (low + 0x10 * rest) % 0x10 == low && (low + 0x10 * rest) / 0x10 == rest
  {
  }

  lemma Coarser(w: nat)
    ensures w / 0x10 / 0x10 == w / 0x100 && w / 0x100 / 0x10 == w / 0x1000
    ensures w % 0x100 == w % 0x10 + 0x10 * (w / 0x10 % 0x10)
  {
  }

  lemma NumberFields(op: Opcode)
    ensures var w := Number(op);
      && w < 0x1_0000 && w / 0x1000 == op.top && w / 0x100 % 0x10 == op.n && w / 0x10 % 0x10 == op.m
      && w % 0x10 == op.low && w / 0x100 == 16 * op.top + op.n && w % 0x100 == op.Imm8()
  {
    var w := Number(op);
    assert w == op.low + 0x10 * (op.m + 0x10 * (op.n + 0x10 * op.top));
    LowNibble(op.low, op.m + 0x10 * (op.n + 0x10 * op.top));
    LowNibble(op.m, op.n + 0x10 * op.top);
    LowNibble(op.n, op.top);
    Coarser(w);
  }
}
