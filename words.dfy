/** Machine-level value types of the assembler and the MIPS32 R-, I- and
    J-type field layout of an instruction word.

    A word is an unsigned 32-bit integer. The encoders build it with
    `instruction |= (field << k)` over fields that occupy disjoint bit
    ranges; for such fields the bitwise or of the shifted values equals
    their sum, and `x << k` equals `x * 2^k`, so the layout is written
    with sums and powers of two, and fields are read back with division
    and remainder. */
module Words {

  /** C's `uint32_t`: byte addresses and symbol addresses. */
  type Addr = x: int | 0 <= x < 0x1_0000_0000

  /** C's `uint8_t`: the opcode and funct arguments of the encoders. */
  type Byte = x: int | 0 <= x < 0x100

  /** One encoded 32-bit instruction word. */
  type Word = x: int | 0 <= x < 0x1_0000_0000

  /** The immediate range the translator treats as fitting one 16-bit
      field: `li`'s one-instruction case, `addiu` immediates, memory
      offsets and branch label addresses. It is one wider on each side
      than a signed 16-bit field. */
  const ImmLower := -32769
  const ImmUpper := 32768

  // Field decoders; bit 31 is the most significant bit.

  /** bits 31:26 */
  function Opcode(w: Word): nat { w / 0x400_0000 }

  /** bits 25:21 */
  function Rs(w: Word): nat { w / 0x20_0000 % 0x20 }

  /** bits 20:16 */
  function Rt(w: Word): nat { w / 0x1_0000 % 0x20 }

  /** bits 15:11 */
  function Rd(w: Word): nat { w / 0x800 % 0x20 }

  /** bits 10:6 */
  function Shamt(w: Word): nat { w / 0x40 % 0x20 }

  /** bits 5:0 */
  function Funct(w: Word): nat { w % 0x40 }

  /** bits 15:0, the I-type immediate */
  function Imm16(w: Word): nat { w % 0x1_0000 }

  /** bits 25:0, the J-type target */
  function Target(w: Word): nat { w % 0x400_0000 }

  /** The R-type layout: opcode, rs, rt, rd, shamt, funct. */
  function RWord(op: nat, rs: nat, rt: nat, rd: nat, shamt: nat, funct: nat): (w: Word)
    requires op < 0x40 && rs < 0x20 && rt < 0x20 && rd < 0x20 && shamt < 0x20 && funct < 0x40
    ensures Opcode(w) == op && Rs(w) == rs && Rt(w) == rt
    ensures Rd(w) == rd && Shamt(w) == shamt && Funct(w) == funct
  {
    var w := funct + shamt * 0x40 + rd * 0x800 + rt * 0x1_0000 + rs * 0x20_0000 + op * 0x400_0000;
    assert w / 0x40 == shamt + rd * 0x20 + rt * 0x400 + rs * 0x8000 + op * 0x10_0000;
    assert w / 0x800 == rd + rt * 0x20 + rs * 0x400 + op * 0x8000;
    assert w / 0x1_0000 == rt + rs * 0x20 + op * 0x400;
    assert w / 0x20_0000 == rs + op * 0x20;
    w
  }

  /** The I-type layout: opcode, rs, rt, 16-bit immediate. */
  function IWord(op: nat, rs: nat, rt: nat, imm: nat): (w: Word)
    requires op < 0x40 && rs < 0x20 && rt < 0x20 && imm < 0x1_0000
    ensures Opcode(w) == op && Rs(w) == rs && Rt(w) == rt && Imm16(w) == imm
  {
    var w := imm + rt * 0x1_0000 + rs * 0x20_0000 + op * 0x400_0000;
    assert w / 0x1_0000 == rt + rs * 0x20 + op * 0x400;
    assert w / 0x20_0000 == rs + op * 0x20;
    w
  }

  /** The J-type layout: opcode, 26-bit target. */
  function JWord(op: nat, target: nat): (w: Word)
    requires op < 0x40 && target < 0x400_0000
    ensures Opcode(w) == op && Target(w) == target
  {
    target + op * 0x400_0000
  }

  /** The R-type fields determine the word: decoding then re-encoding any
      word gives it back. */
  lemma RWordOfFields(w: Word)
    ensures RWord(Opcode(w), Rs(w), Rt(w), Rd(w), Shamt(w), Funct(w)) == w
  {
    var a := w / 0x40;
    var b := a / 0x20;
    var c := b / 0x20;
    var d := c / 0x20;
    assert w == Funct(w) + a * 0x40;
    assert a == Shamt(w) + b * 0x20 && b == w / 0x800;
    assert b == Rd(w) + c * 0x20 && c == w / 0x1_0000;
    assert c == Rt(w) + d * 0x20 && d == w / 0x20_0000;
    assert d == Rs(w) + Opcode(w) * 0x20;
  }

  /** The I-type fields determine the word. */
  lemma IWordOfFields(w: Word)
    ensures IWord(Opcode(w), Rs(w), Rt(w), Imm16(w)) == w
  {
    var c := w / 0x1_0000;
    var d := c / 0x20;
    assert w == Imm16(w) + c * 0x1_0000;
    assert c == Rt(w) + d * 0x20 && d == w / 0x20_0000;
    assert d == Rs(w) + Opcode(w) * 0x20;
  }

  /** The J-type fields determine the word. */
  lemma JWordOfFields(w: Word)
    ensures JWord(Opcode(w), Target(w)) == w
  {
  }

  /** The signed value a MIPS processor reads from a 16-bit immediate field. */
  function SignExtend16(x: nat): (v: int)
    requires x < 0x1_0000
    ensures -0x8000 <= v < 0x8000 && v % 0x1_0000 == x
  {
    if x < 0x8000 then x else x - 0x1_0000
  }
}
