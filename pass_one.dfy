/** Pass one of the translator: lowers the pseudo-instructions `li` and
    `blt` into real instructions and passes every other instruction
    through, writing instruction lines to the intermediate output. */
module PassOne {
  import opened Wrappers
  import opened Words
  import opened Streams
  import opened TranslateUtils

  /** An operand of an emitted line: a source token copied verbatim, or an
      immediate the expansion computed (its textual form is not modelled). */
  datatype Operand = Token(text: string) | Imm(value: int)

  /** One instruction line: mnemonic and operands. */
  datatype Inst = Inst(name: string, args: seq<Operand>)

  function Tokens(args: seq<string>): (ops: seq<Operand>)
    ensures |ops| == |args| && forall i :: 0 <= i < |args| ==> ops[i] == Token(args[i])
  {
    seq(|args|, i requires 0 <= i < |args| => Token(args[i]))
  }

  /** The bounds `li` accepts; within `[ImmLower, ImmUpper]` it loads the
      value with one `addiu`. */
  const LiLower := -2147483647
  const LiUpper := 2147483647

  /** The upper and lower halves of the unsigned 32-bit pattern `uimm` of
      `imm`: `(uimm >> 16) & 0xFFFF` and `uimm & 0xFFFF`, written as the
      quotient and remainder they are for a non-negative value. */
  function SplitImm(imm: int): (halves: (int, int))
    ensures 0 <= halves.0 < 0x10000 && 0 <= halves.1 < 0x10000
    ensures halves.0 * 0x10000 + halves.1 == imm % 0x1_0000_0000
  {
    var uimm := imm % 0x1_0000_0000;
    ((uimm / 0x10000) % 0x10000, uimm % 0x10000)
  }

  /** The lines `write_pass_one` writes for one source instruction; their
      number is its return value, and an error writes none. */
  function Expand(name: string, args: seq<string>, u: Utils): seq<Inst>
  {
    if name == "li" then
      if |args| != 2 then []
      else match TranslateNum(u, args[1], LiLower, LiUpper)
        case None => []
        case Some(imm) =>
          if ImmLower <= imm <= ImmUpper then
            [Inst("addiu", [Token(args[0]), Token("$zero"), Imm(imm)])]
          else
            var (upper, lower) := SplitImm(imm);
            [Inst("lui", [Token("$at"), Imm(upper)]),
             Inst("ori", [Token(args[0]), Token("$at"), Imm(lower)])]
    else if name == "blt" then
      if |args| != 3 then []
      else
        [Inst("slt", [Token("$at"), Token(args[0]), Token(args[1])]),
         Inst("bne", [Token("$at"), Token("$zero"), Token(args[2])])]
    else
      [Inst(name, Tokens(args))]
  }

  /** `write_pass_one(output, name, args, num_args)`. */
  method WritePassOne(output: Output<Inst>, name: string, args: seq<string>, u: Utils) returns (n: nat)
    modifies output
    ensures output.records == old(output.records) + Expand(name, args, u)
    ensures n == |Expand(name, args, u)|
  {
    if name == "li" {
      if |args| != 2 {
        return 0;
      }
      var imm := TranslateNum(u, args[1], LiLower, LiUpper);
      if imm.None? {
        return 0;
      }
      if ImmLower <= imm.value <= ImmUpper {
        output.Write(Inst("addiu", [Token(args[0]), Token("$zero"), Imm(imm.value)]));
        return 1;
      }
      var (upper16, lower16) := SplitImm(imm.value);
      output.Write(Inst("lui", [Token("$at"), Imm(upper16)]));
      output.Write(Inst("ori", [Token(args[0]), Token("$at"), Imm(lower16)]));
      return 2;
    } else if name == "blt" {
      if |args| != 3 {
        return 0;
      }
      output.Write(Inst("slt", [Token("$at"), Token(args[0]), Token(args[1])]));
      output.Write(Inst("bne", [Token("$at"), Token("$zero"), Token(args[2])]));
      return 2;
    } else {
      output.Write(Inst(name, Tokens(args)));
      return 1;
    }
  }

  // Properties of the expansion.

  /** A malformed `li` (wrong operand count, or a number outside the signed
      32-bit bounds) expands to nothing. */
  lemma LiRejects(args: seq<string>, u: Utils)
    requires |args| != 2 || TranslateNum(u, args[1], LiLower, LiUpper).None?
    ensures Expand("li", args, u) == []
  {
  }

  /** An `li` of a value in [-32769, 32768] becomes exactly one
      `addiu dst, $zero, imm`. */
  lemma LiSmall(args: seq<string>, u: Utils, imm: int)
    requires |args| == 2 && u.num(args[1]) == Some(imm)
    requires ImmLower <= imm <= ImmUpper
    ensures Expand("li", args, u) == [Inst("addiu", [Token(args[0]), Token("$zero"), Imm(imm)])]
  {
  }

  /** An `li` of any other accepted value becomes `lui $at, upper` followed
      by `ori dst, $at, lower`, two 16-bit halves that together are the
      32-bit pattern of the value. */
  lemma LiLarge(args: seq<string>, u: Utils, imm: int)
    requires |args| == 2 && u.num(args[1]) == Some(imm)
    requires LiLower <= imm <= LiUpper && !(ImmLower <= imm <= ImmUpper)
    ensures var r := Expand("li", args, u);
      && |r| == 2
      && r[0].name == "lui" && |r[0].args| == 2 && r[0].args[0] == Token("$at") && r[0].args[1].Imm?
      && r[1].name == "ori" && |r[1].args| == 3 && r[1].args[..2] == [Token(args[0]), Token("$at")]
      && r[1].args[2].Imm?
      && 0 <= r[0].args[1].value < 0x10000 && 0 <= r[1].args[2].value < 0x10000
      && r[0].args[1].value * 0x10000 + r[1].args[2].value == imm % 0x1_0000_0000
  {
  }

  /** `blt a, b, label` always becomes `slt $at, a, b` then
      `bne $at, $zero, label` with the label verbatim; any other operand
      count expands to nothing. */
  lemma BltExpansion(args: seq<string>, u: Utils)
    ensures |args| == 3 ==>
      Expand("blt", args, u) ==
        [Inst("slt", [Token("$at"), Token(args[0]), Token(args[1])]),
         Inst("bne", [Token("$at"), Token("$zero"), Token(args[2])])]
    ensures |args| != 3 ==> Expand("blt", args, u) == []
  {
  }

  /** Any mnemonic other than `li` and `blt` is written unchanged, as one line. */
  lemma Passthrough(name: string, args: seq<string>, u: Utils)
    requires name != "li" && name != "blt"
    ensures Expand(name, args, u) == [Inst(name, Tokens(args))]
  {
  }

  /** Every instruction expands to at most two lines, and a mnemonic other
      than `li` and `blt` to exactly one. */
  lemma ExpansionSize(name: string, args: seq<string>, u: Utils)
    ensures |Expand(name, args, u)| <= 2
    ensures name != "li" && name != "blt" ==> |Expand(name, args, u)| == 1
  {
  }

  /** `li $a1, 0x12345678` loads the halves 0x1234 and 0x5678. */
  lemma LiHexExample(u: Utils)
    requires u.num("0x12345678") == Some(0x1234_5678)
    ensures Expand("li", ["$a1", "0x12345678"], u) ==
      [Inst("lui", [Token("$at"), Imm(0x1234)]), Inst("ori", [Token("$a1"), Token("$at"), Imm(0x5678)])]
  {
  }

  /** `li $a1, -299999` loads the halves of its two's-complement pattern
      0xFFFB6C21. */
  lemma LiNegativeExample(u: Utils)
    requires u.num("-299999") == Some(-299999)
    ensures Expand("li", ["$a1", "-299999"], u) ==
      [Inst("lui", [Token("$at"), Imm(0xFFFB)]), Inst("ori", [Token("$a1"), Token("$at"), Imm(0x6C21)])]
  {
  }
}
