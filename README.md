# MIPS32 assembler back end: symbol tables and instruction translation

This project models the core of a two-pass MIPS32 assembler back end and
proves properties of that model in Dafny. The core has two parts.

- **Symbol table** (`tables.c`). It is a growable array of
  `(name, address)` records and has a uniqueness mode. The label table uses
  it in unique mode. The relocation table uses it in non-unique mode.
- **Instruction translation** (`translate.c`).
  - Pass one lowers the pseudo-instructions `li` and `blt` into real
    instructions and copies every other instruction through unchanged.
  - Pass two validates one real instruction and packs it into a 32-bit
    word using the R-, I- and J-type field layout.
  - Pass two also resolves branch labels against the label table and
    records jump targets in the relocation table.

Files, one module each unless stated:

- `wrappers.dfy`: `Option`, standing for the source's `-1` error returns.
- `words.dfy`: the types `Addr` (`uint32_t`), `Byte` (`uint8_t`) and `Word`.
  - It also holds the field decoders (`Opcode`, `Rs`, `Rt`, `Rd`, `Shamt`,
    `Funct`, `Imm16`, `Target`) and the three layouts `RWord`, `IWord` and
    `JWord`.
  - A word is an unsigned 32-bit integer. The source builds words with
    `|=` over shifted fields whose bit ranges do not overlap. For such
    fields, "or" equals the sum, so the layout is written with sums and
    powers of two.
- `streams.dfy`: `Output<T>`, an output `FILE*` seen as the sequence of
  records written to it. `write_inst_string`, `write_inst_hex` and
  `write_symbol` each append one record.
- `translate_utils.dfy`: the register and number parsers (`translate_reg`,
  `translate_num`).
  - Their source is not part of this model, so they are function-valued
    parameters (`Utils`), and every result holds for all parsers.
  - `TranslateNum` adds the bound check, so a number is accepted only
    within its bounds.
- `tables.dfy`: the `SymbolTable` class (array `tbl`, `len`, `cap`, `mode`),
  its invariant `Valid()`, lookup, insertion, growth and listing.
- `pass_one.dfy`: `Expand` (the lines `write_pass_one` writes) and the
  method `WritePassOne`, which writes them one at a time.
- `pass_two.dfy`: two modules.
  - `PassTwo` holds the encoders as functions to `Option<Word>`,
    `splitArgs`, the mnemonic dispatch, and the methods `WriteJump` and
    `TranslateInst`.
  - `PassTwoProperties` holds lemmas relating pass two to the MIPS field
    layout and to the relocation table.
- `scenarios.dfy`: client methods built on inputs like those of the
  disabled test drivers. They show what a caller can conclude from the
  contracts alone.

### Behaviour as written

Three behaviours of the code are modelled exactly as written:

- The branch encoder range-checks the label's **address**, not the branch
  distance (`translate.c:218-220`).
  - `BranchRejectsNearLabel` shows that a label 9 words back from
    `0x00400030` is rejected, because it sits at `0x00400010`.
  - `BranchAcceptsFarLabel` shows that a label at address 0 is accepted
    from `0x00400000`, although the encoded branch leads somewhere else.
  - The source's own test driver branches from `0x00400030` to a label at
    `0x00400010`, which this check rejects.
- A jump adds a relocation record only when its label is not yet in the
  relocation table (`translate.c:191-193`). A repeated `j Foo` therefore
  adds nothing (`JumpRecordsLabelOnce`, `Scenarios.RepeatedJump`).
- The immediate range of `addiu`, memory offsets, `li`'s one-instruction
  case and branch label addresses is `[-32769, 32768]`. This is one wider
  on each side than a signed 16-bit field, and the model keeps it.

## Model

| member | source | states |
|---|---|---|
| `Tables.SymbolTable.constructor` | proj1_starter-master/src/tables.c:43-60 | a new table is valid and empty, with `len == 0`, `cap == 2` and the given mode |
| `Tables.SymbolTable.Add` | proj1_starter-master/src/tables.c:95-127 | returns -1 exactly when the address is not a multiple of 4, or the mode is unique and lookup finds the name; then nothing changes. Otherwise it returns 0, appends exactly `(name, addr)`, grows `len` by one, doubles `cap` when the table was full, and keeps `Valid()` (`len <= cap`, aligned addresses, distinct names in unique mode) |
| `Tables.SymbolTable.Grow` | proj1_starter-master/src/tables.c:109-119 | the storage becomes a fresh array of twice the capacity holding the same records |
| `Tables.SymbolTable.Valid` | proj1_starter-master/src/tables.c:95-127 | the table invariant the constructor establishes and `Add` and `Grow` keep: `cap` is the storage length and at least 2, `len <= cap`, every stored address is a multiple of 4, and in unique mode no two records share a name (no contract of its own; stated through those members' `ensures`) |
| `Tables.FindAddr` | proj1_starter-master/src/tables.c:132-145 | the result is -1 exactly when no record has the name; otherwise it is the address of the first record with that name, in insertion order. It is an unsigned 32-bit value, so it never equals -1 |
| `Tables.GetAddrForSymbol` | proj1_starter-master/src/tables.c:132-145 | the linear scan returns -1 for a NULL table and otherwise returns the first-match address `FindAddr` characterises |
| `Tables.Labels` | proj1_starter-master/src/tables.c:137-142 | the records a lookup scans: none for a NULL table, else the first `len` slots in insertion order (no contract of its own; `GetAddrForSymbol` and `TranslateInst` are stated through it) |
| `Tables.FindAddrAppend` | proj1_starter-master/src/tables.c:121-124 | after an append, lookup returns an earlier match if there is one, else the new record's address if its name matches, else -1 |
| `Tables.AppendFresh` | proj1_starter-master/src/tables.c:103-106 | appending a name lookup does not find keeps names distinct, and lookup then returns the new address |
| `Tables.WriteTable` | proj1_starter-master/src/tables.c:150-158 | writes one `(addr, name)` record per table entry, in insertion order, and nothing else; writes nothing for a NULL table |
| `Streams.Output.Write` | proj1_starter-master/src/translate.c:132 | appends exactly one record to the output and changes nothing already written |
| `TranslateUtils.TranslateNum` | proj1_starter-master/src/translate.c:82-85 | succeeds only with the parsed value, and only when it lies within the inclusive bounds; fails otherwise |
| `PassOne.WritePassOne` | proj1_starter-master/src/translate.c:72-135 | appends exactly the expansion's lines to the output and returns their number |
| `PassOne.Expand` | proj1_starter-master/src/translate.c:74-134 | the lines `write_pass_one` writes for one instruction (no contract of its own; its behaviour is stated by `LiRejects`, `LiSmall`, `LiLarge`, `BltExpansion`, `Passthrough` and `ExpansionSize`) |
| `PassOne.SplitImm` | proj1_starter-master/src/translate.c:99-103 | the two halves of `li`'s 32-bit pattern are each below 65536 and give back `imm mod 2^32` as `upper * 65536 + lower` |
| `PassOne.LiRejects` | proj1_starter-master/src/translate.c:77-85 | `li` with an operand count other than 2, or a number outside `[-2147483647, 2147483647]`, expands to nothing |
| `PassOne.LiSmall` | proj1_starter-master/src/translate.c:89-96 | `li dst, imm` with imm in `[-32769, 32768]` expands to exactly one `addiu dst, $zero, imm` |
| `PassOne.LiLarge` | proj1_starter-master/src/translate.c:97-114 | any other accepted `li` expands to `lui $at, upper` then `ori dst, $at, lower`, with both halves below 65536 and `upper * 65536 + lower == imm mod 2^32` |
| `PassOne.BltExpansion` | proj1_starter-master/src/translate.c:117-130 | `blt a, b, L` expands to `slt $at, a, b` then `bne $at, $zero, L` with the label verbatim; any other operand count expands to nothing |
| `PassOne.Passthrough` | proj1_starter-master/src/translate.c:131-134 | every mnemonic other than `li` and `blt` is written unchanged as one line |
| `PassOne.ExpansionSize` | proj1_starter-master/src/translate.c:72-135 | an instruction expands to at most two lines, and a non-pseudo instruction to exactly one |
| `PassOne.LiHexExample` | proj1_starter-master/src/translate.c:99-111 | `li $a1, 0x12345678` becomes `lui $at, 0x1234` and `ori $a1, $at, 0x5678` |
| `PassOne.LiNegativeExample` | proj1_starter-master/src/translate.c:541-542 | `li $a1, -299999` becomes `lui $at, 0xFFFB` and `ori $a1, $at, 0x6C21` |
| `Words.RWord` | proj1_starter-master/src/translate.c:435-440 | the R-type fields decode back from bits 31:26, 25:21, 20:16, 15:11, 10:6 and 5:0 |
| `Words.IWord` | proj1_starter-master/src/translate.c:380-385 | the I-type fields decode back from bits 31:26, 25:21, 20:16 and 15:0 |
| `Words.JWord` | proj1_starter-master/src/translate.c:196-199 | the J-type fields decode back from bits 31:26 and 25:0 |
| `Words.RWordOfFields` | proj1_starter-master/src/translate.c:435-440 | re-encoding any word's R-type fields gives the word back (the fields determine the word) |
| `Words.IWordOfFields` | proj1_starter-master/src/translate.c:380-385 | re-encoding any word's I-type fields gives the word back |
| `Words.JWordOfFields` | proj1_starter-master/src/translate.c:196-199 | re-encoding any word's J-type fields gives the word back |
| `PassTwo.CDiv` | proj1_starter-master/src/translate.c:223 | C's truncating division: the remainder is smaller than the divisor in magnitude and has the sign of the dividend |
| `PassTwo.CDivExact` | proj1_starter-master/src/translate.c:223 | on a multiple of 4, truncating and Euclidean division agree |
| `PassTwo.EncodeRType` | proj1_starter-master/src/translate.c:425-445 | succeeds exactly with 3 operands that are all valid registers; the word has opcode 0, rd, rs and rt in bits 15:11, 25:21 and 20:16, shamt 0, and the funct in bits 5:0 |
| `PassTwo.EncodeShift` | proj1_starter-master/src/translate.c:454-478 | succeeds exactly with 3 operands, two valid registers and a shamt in `[0, 31]`; the word has opcode 0, rs 0, rd, rt, shamt in bits 10:6, and the funct |
| `PassTwo.EncodeJr` | proj1_starter-master/src/translate.c:397-415 | succeeds exactly with one valid register; the word has rs in bits 25:21, the funct, and every other field zero |
| `PassTwo.EncodeAddiu` | proj1_starter-master/src/translate.c:368-391 | succeeds exactly with 3 operands, valid rt and rs, and an immediate in `[-32769, 32768]`; the word has the opcode, rs, rt and `imm mod 65536` in bits 15:0 |
| `PassTwo.EncodeOri` | proj1_starter-master/src/translate.c:341-364 | succeeds exactly with 3 operands, valid registers and an immediate in `[0, 65535]`; the word has the opcode, rs, rt and the immediate |
| `PassTwo.EncodeLui` | proj1_starter-master/src/translate.c:316-339 | succeeds exactly with 2 operands, a valid register and an immediate in `[0, 65535]`; bits 25:21 are zero and rt and the immediate are in place |
| `PassTwo.FirstIndex` | proj1_starter-master/src/translate.c:253-254 | the `strchr` result is -1 exactly when the character is absent; otherwise it is the index of its first occurrence |
| `PassTwo.SplitArgs` | proj1_starter-master/src/translate.c:246-269 | succeeds exactly when the operand has a `(` and ends in its first `)`; then the operand equals `offset + "(" + base + ")"`, with no `(` or `)` in the offset and no `)` in the base |
| `PassTwo.SplitJoin` | proj1_starter-master/src/translate.c:240-244 | splitting `offset(base)` gives back `offset` and `base` (the inverse of `SplitArgs`) |
| `PassTwo.EncodeMem` | proj1_starter-master/src/translate.c:272-311 | succeeds exactly with 2 operands: a valid rt, and an operand that splits into an offset in `[-32769, 32768]` and a valid base register; the word has the opcode, base in rs, rt, and `offset mod 65536` |
| `PassTwo.EncodeBranch` | proj1_starter-master/src/translate.c:209-237 | succeeds exactly with 3 operands, two valid registers, and a label found in the label table at an aligned address within `[-32769, 32768]`; bits 15:0 hold `((label - addr - 4) / 4) mod 65536`, where `/` truncates as in C |
| `PassTwo.BranchLabelOk` | proj1_starter-master/src/translate.c:218-220 | the label test of `write_branch`: found, a multiple of 4, and the address itself within `[-32769, 32768]` (no contract of its own; used by `EncodeBranch`'s if-and-only-if, and shown by `BranchRejectsNearLabel` and `BranchAcceptsFarLabel`) |
| `PassTwo.EncodeJump` | proj1_starter-master/src/translate.c:186-205 | succeeds exactly with one operand and an aligned address at most `0xFFFFFFF`; the word is the opcode in bits 31:26 with the 26 target bits zero |
| `PassTwo.JumpRelocations` | proj1_starter-master/src/translate.c:191-193 | the relocation records after `write_jump`: `(label, addr)` is appended only for a valid jump whose label lookup misses (no contract of its own; its properties are `JumpRelocationsAppend`, `JumpRecordsLabelOnce` and `JumpRelocationsDistinct`) |
| `PassTwo.Dispatch` | proj1_starter-master/src/translate.c:157-180 | exactly the 18 listed mnemonics select an encoder, each with an opcode or funct below 64 |
| `PassTwo.EncodeInst` | proj1_starter-master/src/translate.c:157-180 | the word `translate_inst` writes: the encoder `Dispatch` selects applied to the operands, and None for a mnemonic outside the 18 (no contract of its own; `TranslateInst` is proved to write exactly it, and `AdduEncoding` shows one mnemonic through it) |
| `PassTwo.Relocations` | proj1_starter-master/src/translate.c:157-180 | the relocation records after `translate_inst`: `JumpRelocations` for `j` and `jal`, unchanged for every other mnemonic (no contract of its own; `TranslateInst` is proved to leave exactly them) |
| `PassTwo.WriteJump` | proj1_starter-master/src/translate.c:186-205 | on an invalid jump, returns -1 and changes nothing. Otherwise it adds `(label, addr)` to the relocation table only when the label is absent, writes the opcode word once, returns 0, and keeps the table valid |
| `PassTwo.TranslateInst` | proj1_starter-master/src/translate.c:157-180 | returns 0 after writing exactly the one encoded word, or -1 after writing nothing (always -1 for an unknown mnemonic); only `j` and `jal` change the relocation table |
| `PassTwoProperties.AdduEncoding` | proj1_starter-master/src/translate.c:159 | `addu rd, rs, rt` fails exactly when a register is invalid; otherwise its word has opcode 0, funct `0x21` and the registers' numbers in the rd, rs and rt fields |
| `PassTwoProperties.BranchArithmetic` | proj1_starter-master/src/translate.c:223-228 | for aligned addresses, the stored immediate is the exact word distance modulo 2^16, and when the distance fits 16 signed bits, `addr + 4 + 4 * signext(imm)` is the label |
| `PassTwoProperties.BranchTarget` | proj1_starter-master/src/translate.c:216-233 | an encoded branch from an aligned address reaches its label when the distance fits the field |
| `PassTwoProperties.BranchRejectsNearLabel` | proj1_starter-master/src/translate.c:516-523 | a label 9 words away is rejected because its address exceeds 32768 |
| `PassTwoProperties.BranchAcceptsFarLabel` | proj1_starter-master/src/translate.c:218-228 | a label at address 0 is accepted from `0x00400000`, and the encoded branch leads back to `0x00400000` |
| `PassTwoProperties.JumpRelocationsAppend` | proj1_starter-master/src/translate.c:191-193 | the relocation table either stays the same or gains exactly `(label, addr)` at its end |
| `PassTwoProperties.JumpRecordsLabelOnce` | proj1_starter-master/src/translate.c:191-193 | after a valid jump the label is present, and a later jump to it from any address adds nothing |
| `PassTwoProperties.JumpRelocationsDistinct` | proj1_starter-master/src/translate.c:191-193 | jumps keep relocation names distinct and addresses aligned |
| `Scenarios.UniqueTable` | proj1_starter-master/src/tables.c:167-188 | in a unique table, a second add of a name and a misaligned add both return -1, and lookup still returns the first address |
| `Scenarios.NonUniqueTable` | proj1_starter-master/src/tables.c:103-126 | a non-unique table accepts three records with one name, grows to capacity 4, and lookup returns the earliest |
| `Scenarios.RepeatedJump` | proj1_starter-master/src/translate.c:189-203 | two `j Foo` from different addresses both write `0x08000000`, and exactly one relocation record is added |

## Left out

- Output formatting is not modelled. This covers the text that
  `write_symbol`, `write_inst_string` and `write_inst_hex` produce,
  and the `" %ld"` and `" 0x%x"` text of immediates. Output is a sequence
  of records with integer immediates.
- `translate_reg` and `translate_num` are parameters, because their source
  is not part of this model.
- `translate_ulong` (`strtoul`, leading whitespace, wrap-around of negative
  text modulo 2^64, hex detection by `strstr`) is not modelled.
  - `PassOne.Expand`: `li`'s two halves are taken from `imm mod 2^32`,
    where imm is the value `translate_num` parsed. This is what
    `translate_ulong` yields for every number `translate_num` accepts in
    that range.
  - The ignored error return of `translate_ulong` therefore does not appear.
- Memory management is not modelled, because the model has no allocation
  failure or manual freeing. This covers `malloc`/`realloc` failure,
  `allocation_failed` and `exit(1)`, `strdup` copies (strings are values),
  `free_table` and the `free` calls in `write_mem`.
- The `write_to_log` diagnostics are left out because they are logging
  side effects only.
- A `table->tbl == NULL` storage pointer is not modelled, because the
  storage always exists once allocation cannot fail. A NULL table pointer
  is modelled for `GetAddrForSymbol`, `WriteTable` and the label table of
  `TranslateInst`.
- `PassTwo.TranslateInst`: the relocation table is never NULL. In C a NULL
  relocation table is harmless for the 16 mnemonics other than `j` and
  `jal`, and a jump would dereference it in `add_to_table`.
- `Tables.Mode`: the mode is a two-valued datatype. In C it is an `int`,
  and any value other than `SYMTBL_UNIQUE_NAME` behaves like
  `SYMTBL_NON_UNIQUE`.
- `Tables.SymbolTable.Grow`: the overflow of `int new_cap = cap * 2` is not
  modelled, because it needs more than 2^30 records.
- C undefined behaviour is not modelled: `opcode << 26` overflowing a
  signed `int`, and the 256-byte `strcpy` buffers of `splitArgs`.
  - The encoders keep the low 6 bits of the opcode, as the 32-bit word
    does. Every opcode the dispatch passes is below 64 anyway.
  - `PassTwo.SplitArgs`: operands of 256 characters or more are treated
    like shorter ones.
- `PassTwo.TranslateInst` reads the label table's contents through
  `Tables.FindAddr`, the function that `GetAddrForSymbol` is proved to
  compute, instead of calling the lookup method.
- The driver is not modelled: tokenizing, the loop over source lines,
  address assignment and the object-file writer. Determinism of the two
  passes holds because every model function is a function.
- The disabled test drivers (`#if 0` blocks) are not compiled. They are
  used only as example inputs in `Scenarios` and the example lemmas.
