/** Pass two of the translator: validates one real instruction, encodes it
    as a 32-bit word with the MIPS32 field layout, resolves branch labels
    against the label table and records jump targets in the relocation
    table. */
module PassTwo {
  import opened Wrappers
  import opened Words
  import opened Streams
  import opened TranslateUtils
  import opened Tables

  /** C's `/` on integers: the quotient truncated toward zero (Dafny's `/`
      is Euclidean). */
  function CDiv(a: int, b: int): (q: int)
    requires b > 0
    ensures var rem := a - b * q; -b < rem < b && (a >= 0 ==> rem >= 0) && (a <= 0 ==> rem <= 0)
  {
    if a >= 0 then a / b else -((-a) / b)
  }

  /** On an exact multiple the truncated and the Euclidean quotient agree. */
  lemma CDivExact(a: int)
    requires a % 4 == 0
    ensures CDiv(a, 4) == a / 4
  {
  }

  // --- Encoders: each returns the word it would write, or None (-1) ---

  /** `write_rtype(funct, ...)`: `rd, rs, rt`. */
  function EncodeRType(funct: Byte, args: seq<string>, u: Utils): (r: Option<Word>)
    ensures r.Some? <==>
      |args| == 3 && TranslateReg(u, args[0]) != -1 &&
      TranslateReg(u, args[1]) != -1 && TranslateReg(u, args[2]) != -1
    ensures r.Some? ==>
      && Opcode(r.value) == 0 && Funct(r.value) == funct % 0x40 && Shamt(r.value) == 0
      && Rd(r.value) == TranslateReg(u, args[0])
      && Rs(r.value) == TranslateReg(u, args[1])
      && Rt(r.value) == TranslateReg(u, args[2])
  {
    if |args| != 3 then None
    else
      var rd := TranslateReg(u, args[0]);
      var rs := TranslateReg(u, args[1]);
      var rt := TranslateReg(u, args[2]);
      if rd == -1 || rs == -1 || rt == -1 then None
      else Some(RWord(0, rs, rt, rd, 0, funct % 0x40))
  }

  /** `write_shift(funct, ...)`: `rd, rt, shamt` with shamt in [0, 31]. */
  function EncodeShift(funct: Byte, args: seq<string>, u: Utils): (r: Option<Word>)
    ensures r.Some? <==>
      |args| == 3 && TranslateReg(u, args[0]) != -1 && TranslateReg(u, args[1]) != -1 &&
      TranslateNum(u, args[2], 0, 31).Some?
    ensures r.Some? ==>
      && Opcode(r.value) == 0 && Rs(r.value) == 0 && Funct(r.value) == funct % 0x40
      && Rd(r.value) == TranslateReg(u, args[0])
      && Rt(r.value) == TranslateReg(u, args[1])
      && Shamt(r.value) == TranslateNum(u, args[2], 0, 31).value
  {
    if |args| != 3 then None
    else
      var shamt := TranslateNum(u, args[2], 0, 31);
      var rd := TranslateReg(u, args[0]);
      var rt := TranslateReg(u, args[1]);
      if shamt.None? || rd == -1 || rt == -1 then None
      else Some(RWord(0, 0, rt, rd, shamt.value, funct % 0x40))
  }

  /** `write_jr(funct, ...)`: `rs`. */
  function EncodeJr(funct: Byte, args: seq<string>, u: Utils): (r: Option<Word>)
    ensures r.Some? <==> |args| == 1 && TranslateReg(u, args[0]) != -1
    ensures r.Some? ==>
      && Opcode(r.value) == 0 && Rt(r.value) == 0 && Rd(r.value) == 0 && Shamt(r.value) == 0
      && Funct(r.value) == funct % 0x40
      && Rs(r.value) == TranslateReg(u, args[0])
  {
    if |args| != 1 then None
    else
      var rs := TranslateReg(u, args[0]);
      if rs == -1 then None
      else Some(RWord(0, rs, 0, 0, 0, funct % 0x40))
  }

  /** `write_addiu(opcode, ...)`: `rt, rs, imm` with imm in [-32769, 32768];
      the field holds `imm & 0xFFFF`, that is imm modulo 2^16. */
  function EncodeAddiu(opcode: Byte, args: seq<string>, u: Utils): (r: Option<Word>)
    ensures r.Some? <==>
      |args| == 3 && TranslateReg(u, args[0]) != -1 && TranslateReg(u, args[1]) != -1 &&
      TranslateNum(u, args[2], ImmLower, ImmUpper).Some?
    ensures r.Some? ==>
      && Opcode(r.value) == opcode % 0x40
      && Rt(r.value) == TranslateReg(u, args[0])
      && Rs(r.value) == TranslateReg(u, args[1])
      && Imm16(r.value) == TranslateNum(u, args[2], ImmLower, ImmUpper).value % 0x1_0000
  {
    if |args| != 3 then None
    else
      var rt := TranslateReg(u, args[0]);
      var rs := TranslateReg(u, args[1]);
      var imm := TranslateNum(u, args[2], ImmLower, ImmUpper);
      if rs == -1 || rt == -1 || imm.None? then None
      else Some(IWord(opcode % 0x40, rs, rt, imm.value % 0x1_0000))
  }

  /** `write_ori(opcode, ...)`: `rt, rs, imm` with imm in [0, 65535]. */
  function EncodeOri(opcode: Byte, args: seq<string>, u: Utils): (r: Option<Word>)
    ensures r.Some? <==>
      |args| == 3 && TranslateReg(u, args[0]) != -1 && TranslateReg(u, args[1]) != -1 &&
      TranslateNum(u, args[2], 0, 0xFFFF).Some?
    ensures r.Some? ==>
      && Opcode(r.value) == opcode % 0x40
      && Rt(r.value) == TranslateReg(u, args[0])
      && Rs(r.value) == TranslateReg(u, args[1])
      && Imm16(r.value) == TranslateNum(u, args[2], 0, 0xFFFF).value
  {
    if |args| != 3 then None
    else
      var rt := TranslateReg(u, args[0]);
      var rs := TranslateReg(u, args[1]);
      var imm := TranslateNum(u, args[2], 0, 0xFFFF);
      if rs == -1 || rt == -1 || imm.None? then None
      else Some(IWord(opcode % 0x40, rs, rt, imm.value))
  }

  /** `write_lui(opcode, ...)`: `rt, imm` with imm in [0, 65535]; the rs
      field stays zero. */
  function EncodeLui(opcode: Byte, args: seq<string>, u: Utils): (r: Option<Word>)
    ensures r.Some? <==>
      |args| == 2 && TranslateReg(u, args[0]) != -1 && TranslateNum(u, args[1], 0, 0xFFFF).Some?
    ensures r.Some? ==>
      && Opcode(r.value) == opcode % 0x40 && Rs(r.value) == 0
      && Rt(r.value) == TranslateReg(u, args[0])
      && Imm16(r.value) == TranslateNum(u, args[1], 0, 0xFFFF).value
  {
    if |args| != 2 then None
    else
      var rt := TranslateReg(u, args[0]);
      var imm := TranslateNum(u, args[1], 0, 0xFFFF);
      if rt == -1 || imm.None? then None
      else Some(IWord(opcode % 0x40, 0, rt, imm.value))
  }

  /** `strchr`: the index of the first `c` in `s`, or -1. */
  function FirstIndex(s: string, c: char): (r: int)
    ensures r == -1 <==> c !in s
    ensures r != -1 ==> 0 <= r < |s| && s[r] == c && c !in s[..r]
  {
    if |s| == 0 then -1
    else if s[0] == c then 0
    else
      var k := FirstIndex(s[1..], c);
      assert k != -1 ==> s[..k + 1] == [s[0]] + s[1..][..k];
      if k == -1 then -1 else k + 1
  }

  /** `splitArgs`: splits a memory operand `offset(base)`. It fails when
      there is no `(`, no `)`, or the first `)` is not the last character;
      otherwise the offset is the text before the first `(` and the base the
      text between it and the closing `)`. */
  function SplitArgs(arg: string): (r: Option<(string, string)>)
    ensures r.Some? <==> '(' in arg && |arg| > 0 && arg[|arg| - 1] == ')' && ')' !in arg[..|arg| - 1]
    ensures r.Some? ==>
      var (offset, base) := r.value;
      arg == offset + "(" + base + ")" && '(' !in offset && ')' !in offset && ')' !in base
  {
    var leftp := FirstIndex(arg, '(');
    var rightp := FirstIndex(arg, ')');
    if leftp == -1 || rightp == -1 || rightp != |arg| - 1 then
      assert rightp != -1 && rightp != |arg| - 1 ==> arg[rightp] in arg[..|arg| - 1];
      None
    else
      assert arg == arg[..leftp] + "(" + arg[leftp + 1..rightp] + ")";
      Some((arg[..leftp], arg[leftp + 1..rightp]))
  }

  /** Splitting undoes writing an operand as `offset(base)`. */
  lemma SplitJoin(offset: string, base: string)
    requires '(' !in offset && ')' !in offset && ')' !in base
    ensures SplitArgs(offset + "(" + base + ")") == Some((offset, base))
  {
    var arg := offset + "(" + base + ")";
    assert arg[..|arg| - 1] == offset + "(" + base;
    assert arg[|offset|] == '(' && arg[..|offset|] == offset;
    assert FirstIndex(arg, '(') == |offset|;
  }

  /** `write_mem(opcode, ...)`: `rt, offset(base)` with the offset in
      [-32769, 32768] (stored modulo 2^16) and the base a register. */
  function EncodeMem(opcode: Byte, args: seq<string>, u: Utils): (r: Option<Word>)
    ensures r.Some? <==>
      && |args| == 2 && TranslateReg(u, args[0]) != -1 && SplitArgs(args[1]).Some?
      && TranslateReg(u, SplitArgs(args[1]).value.1) != -1
      && TranslateNum(u, SplitArgs(args[1]).value.0, ImmLower, ImmUpper).Some?
    ensures r.Some? ==>
      && Opcode(r.value) == opcode % 0x40
      && Rt(r.value) == TranslateReg(u, args[0])
      && Rs(r.value) == TranslateReg(u, SplitArgs(args[1]).value.1)
      && Imm16(r.value) == TranslateNum(u, SplitArgs(args[1]).value.0, ImmLower, ImmUpper).value % 0x1_0000
  {
    if |args| != 2 then None
    else
      var rt := TranslateReg(u, args[0]);
      match SplitArgs(args[1])
      case None => None
      case Some((arg0, arg1)) =>
        var rs := TranslateReg(u, arg1);
        var imm := TranslateNum(u, arg0, ImmLower, ImmUpper);
        if rs == -1 || rt == -1 || imm.None? then None
        else Some(IWord(opcode % 0x40, rs, rt, imm.value % 0x1_0000))
  }

  /** The test `write_branch` applies to the looked-up label address: found,
      aligned, and itself within [-32769, 32768]. */
  predicate BranchLabelOk(labelAddress: int)
  {
    labelAddress != -1 && labelAddress % 4 == 0 && ImmLower <= labelAddress <= ImmUpper
  }

  /** `write_branch(opcode, ...)`: `rs, rt, label`; the label must be in the
      label table and pass `BranchLabelOk`; the field holds the truncated
      word distance `(label - addr - 4) / 4` modulo 2^16. */
  function EncodeBranch(opcode: Byte, args: seq<string>, addr: Addr, labels: seq<Symbol>, u: Utils): (r: Option<Word>)
    ensures r.Some? <==>
      |args| == 3 && TranslateReg(u, args[0]) != -1 && TranslateReg(u, args[1]) != -1 &&
      BranchLabelOk(FindAddr(labels, args[2]))
    ensures r.Some? ==>
      && Opcode(r.value) == opcode % 0x40
      && Rs(r.value) == TranslateReg(u, args[0])
      && Rt(r.value) == TranslateReg(u, args[1])
      && Imm16(r.value) == CDiv(FindAddr(labels, args[2]) - addr - 4, 4) % 0x1_0000
  {
    if |args| != 3 then None
    else
      var rs := TranslateReg(u, args[0]);
      var rt := TranslateReg(u, args[1]);
      var labelAddress := FindAddr(labels, args[2]);
      if rs == -1 || rt == -1 || !BranchLabelOk(labelAddress) then None
      else
        var imm := CDiv(labelAddress - addr - 4, 4);
        Some(IWord(opcode % 0x40, rs, rt, imm % 0x1_0000))
  }

  /** The word `write_jump(opcode, ...)` writes: one `label` operand and an
      aligned address at most 0xFFFFFFF; the target bits stay zero for the
      relocation stage to fill in. */
  function EncodeJump(opcode: Byte, args: seq<string>, addr: Addr): (r: Option<Word>)
    ensures r.Some? <==> |args| == 1 && addr <= 0xFFF_FFFF && addr % 4 == 0
    ensures r.Some? ==> Opcode(r.value) == opcode % 0x40 && Target(r.value) == 0
  {
    if |args| != 1 || addr > 0xFFF_FFFF || addr % 4 != 0 then None
    else Some(JWord(opcode % 0x40, 0))
  }

  /** The relocation table after `write_jump`: `(label, addr)` is appended
      only when the jump is valid and the label is not yet in the table. */
  function JumpRelocations(args: seq<string>, addr: Addr, relocs: seq<Symbol>): seq<Symbol>
  {
    if |args| != 1 || addr > 0xFFF_FFFF || addr % 4 != 0 then relocs
    else if FindAddr(relocs, args[0]) == -1 then relocs + [Symbol(args[0], addr)]
    else relocs
  }

  // --- Dispatch ---

  /** The encoder a mnemonic selects, with the opcode or funct it passes. */
  datatype Format =
    | RType(code: Byte)
    | Shift(code: Byte)
    | JumpReg(code: Byte)
    | AddImm(code: Byte)
    | OrImm(code: Byte)
    | LoadUpper(code: Byte)
    | Memory(code: Byte)
    | Branch(code: Byte)
    | Jump(code: Byte)

  /** The eighteen mnemonics pass two accepts. */
  const Mnemonics: set<string> :=
    {"addu", "or", "slt", "sltu", "sll", "jr", "addiu", "ori", "lui",
     "lb", "lbu", "lw", "sb", "sw", "beq", "bne", "j", "jal"}

  /** The mnemonic-to-encoder chain of `translate_inst`. */
  function Dispatch(name: string): (f: Option<Format>)
    ensures f.None? <==> name !in Mnemonics
    ensures f.Some? ==> f.value.code < 0x40
  {
    if name == "addu" then Some(RType(0x21))
    else if name == "or" then Some(RType(0x25))
    else if name == "slt" then Some(RType(0x2a))
    else if name == "sltu" then Some(RType(0x2b))
    else if name == "sll" then Some(Shift(0x00))
    else if name == "jr" then Some(JumpReg(0x08))
    else if name == "addiu" then Some(AddImm(0x09))
    else if name == "ori" then Some(OrImm(0x0d))
    else if name == "lui" then Some(LoadUpper(0x0f))
    else if name == "lb" then Some(Memory(0x20))
    else if name == "lbu" then Some(Memory(0x24))
    else if name == "lw" then Some(Memory(0x23))
    else if name == "sb" then Some(Memory(0x28))
    else if name == "sw" then Some(Memory(0x2B))
    else if name == "beq" then Some(Branch(0x04))
    else if name == "bne" then Some(Branch(0x05))
    else if name == "j" then Some(Jump(0x02))
    else if name == "jal" then Some(Jump(0x03))
    else None
  }

  function EncodeFormat(f: Format, args: seq<string>, addr: Addr, labels: seq<Symbol>, u: Utils): Option<Word>
  {
    match f
    case RType(c) => EncodeRType(c, args, u)
    case Shift(c) => EncodeShift(c, args, u)
    case JumpReg(c) => EncodeJr(c, args, u)
    case AddImm(c) => EncodeAddiu(c, args, u)
    case OrImm(c) => EncodeOri(c, args, u)
    case LoadUpper(c) => EncodeLui(c, args, u)
    case Memory(c) => EncodeMem(c, args, u)
    case Branch(c) => EncodeBranch(c, args, addr, labels, u)
    case Jump(c) => EncodeJump(c, args, addr)
  }

  /** The word `translate_inst` writes for one instruction, or None when it
      returns -1 and writes nothing. */
  function EncodeInst(name: string, args: seq<string>, addr: Addr, labels: seq<Symbol>, u: Utils): Option<Word>
  {
    match Dispatch(name)
    case None => None
    case Some(f) => EncodeFormat(f, args, addr, labels, u)
  }

  /** The relocation table after `translate_inst`: only `j` and `jal` touch it. */
  function Relocations(name: string, args: seq<string>, addr: Addr, relocs: seq<Symbol>): seq<Symbol>
  {
    match Dispatch(name)
    case Some(Jump(_)) => JumpRelocations(args, addr, relocs)
    case _ => relocs
  }

  // --- The writing operations ---

  /** `write_jump(opcode, ...)`: rejects a jump with other than one operand,
      an address above 0xFFFFFFF or a misaligned address; otherwise records
      `(label, addr)` in the relocation table only when lookup misses the
      label, and writes the opcode word with zero target bits. */
  method WriteJump(output: Output<Word>, opcode: Byte, args: seq<string>, addr: Addr, reltbl: SymbolTable)
    returns (r: int)
    requires reltbl.Valid()
    modifies output, reltbl, reltbl.tbl
    ensures reltbl.Valid() && reltbl.mode == old(reltbl.mode)
    ensures reltbl.tbl == old(reltbl.tbl) || fresh(reltbl.tbl)
    ensures var w := EncodeJump(opcode, args, addr);
      && r == (if w.Some? then 0 else -1)
      && output.records == old(output.records) + (if w.Some? then [w.value] else [])
    ensures reltbl.Entries() == JumpRelocations(args, addr, old(reltbl.Entries()))
  {
    if |args| != 1 || addr > 0xFFF_FFFF || addr % 4 != 0 {
      return -1;
    }
    var labelAddress := GetAddrForSymbol(reltbl, args[0]);
    if labelAddress == -1 {
      var added := reltbl.Add(args[0], addr);
    }
    var instruction := JWord(opcode % 0x40, 0);
    output.Write(instruction);
    return 0;
  }

  /** `translate_inst(output, name, args, num_args, addr, symtbl, reltbl)`:
      returns 0 after writing exactly one word, or -1 after writing none;
      branches read the label table, jumps extend the relocation table. */
  method TranslateInst(output: Output<Word>, name: string, args: seq<string>, addr: Addr,
                       symtbl: SymbolTable?, reltbl: SymbolTable, u: Utils)
    returns (r: int)
    requires symtbl != null ==> symtbl.Valid()
    requires reltbl.Valid()
    modifies output, reltbl, reltbl.tbl
    ensures reltbl.Valid() && reltbl.mode == old(reltbl.mode)
    ensures reltbl.tbl == old(reltbl.tbl) || fresh(reltbl.tbl)
    ensures var w := EncodeInst(name, args, addr, old(Labels(symtbl)), u);
      && r == (if w.Some? then 0 else -1)
      && output.records == old(output.records) + (if w.Some? then [w.value] else [])
    ensures reltbl.Entries() == Relocations(name, args, addr, old(reltbl.Entries()))
    ensures name !in Mnemonics ==> r == -1 && output.records == old(output.records)
  {
    var labels := Labels(symtbl);
    var f := Dispatch(name);
    if f.None? {
      return -1;
    }
    if f.value.Jump? {
      r := WriteJump(output, f.value.code, args, addr, reltbl);
      return;
    }
    var w := EncodeFormat(f.value, args, addr, labels, u);
    if w.None? {
      return -1;
    }
    output.Write(w.value);
    r := 0;
  }
}

module PassTwoProperties {
  import opened Wrappers
  import opened Words
  import opened TranslateUtils
  import opened Tables
  import opened PassTwo

  /** `addu rd, rs, rt` with valid registers encodes opcode 0, funct 0x21
      and the three register numbers in their fields; an invalid register
      in any position makes it fail. */
  lemma AdduEncoding(args: seq<string>, addr: Addr, labels: seq<Symbol>, u: Utils)
    requires |args| == 3
    ensures var r := EncodeInst("addu", args, addr, labels, u);
      && (r.Some? <==> TranslateReg(u, args[0]) != -1 && TranslateReg(u, args[1]) != -1 && TranslateReg(u, args[2]) != -1)
      && (r.Some? ==>
           && Opcode(r.value) == 0 && Funct(r.value) == 0x21 && Shamt(r.value) == 0
           && Rd(r.value) == TranslateReg(u, args[0])
           && Rs(r.value) == TranslateReg(u, args[1])
           && Rt(r.value) == TranslateReg(u, args[2]))
  {
    assert Dispatch("addu") == Some(RType(0x21));
    assert EncodeFormat(RType(0x21), args, addr, labels, u) == EncodeRType(0x21, args, u);
  }

  /** Sign extension undoes storing a signed 16-bit value modulo 2^16. */
  lemma SignExtendInverse(v: int)
    requires -0x8000 <= v < 0x8000
    ensures SignExtend16(v % 0x1_0000) == v
  {
  }

  /** The arithmetic of a branch: an aligned distance `d` stored as its
      truncated quotient modulo 2^16. */
  lemma BranchArithmetic(target: int, addr: int, imm: int)
    requires target % 4 == 0 && addr % 4 == 0
    requires imm == CDiv(target - addr - 4, 4) % 0x1_0000
    ensures (target - addr - 4) % 4 == 0
    ensures imm == (target - addr - 4) / 4 % 0x1_0000
    ensures -0x8000 <= (target - addr - 4) / 4 < 0x8000 ==> addr + 4 + 4 * SignExtend16(imm) == target
  {
    var d := target - addr - 4;
    assert d % 4 == 0;
    CDivExact(d);
    if -0x8000 <= d / 4 < 0x8000 {
      SignExtendInverse(d / 4);
    }
  }

  /** From an aligned instruction address, a branch's immediate is the exact
      word distance to the label modulo 2^16; when that distance fits a
      signed 16-bit field, the processor's target `addr + 4 + 4 * imm` is
      the label. */
  lemma BranchTarget(opcode: Byte, args: seq<string>, addr: Addr, labels: seq<Symbol>, u: Utils)
    requires EncodeBranch(opcode, args, addr, labels, u).Some? && addr % 4 == 0
    ensures var target := FindAddr(labels, args[2]);
      var imm := Imm16(EncodeBranch(opcode, args, addr, labels, u).value);
      && imm == (target - addr - 4) / 4 % 0x1_0000
      && (-0x8000 <= (target - addr - 4) / 4 < 0x8000 ==> addr + 4 + 4 * SignExtend16(imm) == target)
  {
    var imm := Imm16(EncodeBranch(opcode, args, addr, labels, u).value);
    BranchArithmetic(FindAddr(labels, args[2]), addr, imm);
  }

  /** As written, the range test applies to the label's address, not to the
      branch distance: a label at 0x00400010 is rejected from 0x00400030,
      although it is only 9 words back. */
  lemma BranchRejectsNearLabel(u: Utils)
    requires TranslateReg(u, "$t1") != -1 && TranslateReg(u, "$t2") != -1
    ensures EncodeBranch(0x04, ["$t1", "$t2", "Done"], 0x0040_0030, [Symbol("Done", 0x0040_0010)], u) == None
    ensures CDiv(0x0040_0010 - 0x0040_0030 - 4, 4) == -9
  {
    assert FindAddr([Symbol("Done", 0x0040_0010)], "Done") == 0x0040_0010;
  }

  /** As written, a label at address 0 is accepted from 0x00400000, although
      the distance of -0x100001 words does not fit the field: the encoded
      branch leads back to 0x00400000 instead. */
  lemma BranchAcceptsFarLabel(u: Utils)
    requires TranslateReg(u, "$t1") != -1 && TranslateReg(u, "$t2") != -1
    ensures var r := EncodeBranch(0x04, ["$t1", "$t2", "L"], 0x0040_0000, [Symbol("L", 0)], u);
      r.Some? && 0x0040_0000 + 4 + 4 * SignExtend16(Imm16(r.value)) == 0x0040_0000
  {
    assert FindAddr([Symbol("L", 0)], "L") == 0;
    var imm := Imm16(EncodeBranch(0x04, ["$t1", "$t2", "L"], 0x0040_0000, [Symbol("L", 0)], u).value);
    FarImmediate(imm);
  }

  lemma FarImmediate(imm: int)
    requires imm == CDiv(0 - 0x0040_0000 - 4, 4) % 0x1_0000
    ensures imm == 0xFFFF && SignExtend16(imm) == -1
  {
    assert CDiv(0 - 0x0040_0000 - 4, 4) == -0x10_0001;
  }

  /** The relocation table only grows by appending, and by at most the one
      record (label, addr). */
  lemma JumpRelocationsAppend(args: seq<string>, addr: Addr, relocs: seq<Symbol>)
    ensures var after := JumpRelocations(args, addr, relocs);
      after == relocs || (|args| == 1 && addr % 4 == 0 && after == relocs + [Symbol(args[0], addr)])
  {
  }

  /** After a valid `j dest`, dest is in the relocation table, and another
      jump to the same label, from any address, adds nothing. */
  lemma JumpRecordsLabelOnce(dest: string, addr: Addr, addr2: Addr, relocs: seq<Symbol>)
    requires addr <= 0xFFF_FFFF && addr % 4 == 0
    ensures var after := JumpRelocations([dest], addr, relocs);
      FindAddr(after, dest) != -1 && JumpRelocations([dest], addr2, after) == after
  {
    if FindAddr(relocs, dest) == -1 {
      FindAddrAppend(relocs, Symbol(dest, addr), dest);
    }
  }

  /** Jumps alone never put two records with one name into the relocation
      table, and every record they add is word-aligned. */
  lemma JumpRelocationsDistinct(args: seq<string>, addr: Addr, relocs: seq<Symbol>)
    ensures var after := JumpRelocations(args, addr, relocs);
      (NamesDistinct(relocs) ==> NamesDistinct(after)) && (AllAligned(relocs) ==> AllAligned(after))
  {
    if |args| == 1 && addr <= 0xFFF_FFFF && addr % 4 == 0 && FindAddr(relocs, args[0]) == -1 {
      AppendFresh(relocs, args[0], addr);
    }
  }
}
