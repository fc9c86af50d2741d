/** Client scenarios: what a caller can conclude from the contracts alone,
    on inputs like those of the repository's disabled test drivers. */
module Scenarios {
  import opened Wrappers
  import opened Words
  import opened Streams
  import opened TranslateUtils
  import opened Tables
  import opened PassTwo

  /** A unique-name table accepts a label once, rejects it the second time
      and a misaligned address always, and still answers lookups with the
      first address. */
  method UniqueTable() returns (first: int, again: int, misaligned: int, found: int, missing: int)
    ensures first == 0 && again == -1 && misaligned == -1
    ensures found == 0x0040_0000 && missing == -1
  {
    var t := new SymbolTable(UniqueName);
    first := t.Add("Loop1", 0x0040_0000);
    again := t.Add("Loop1", 0x00F0_0000);
    misaligned := t.Add("Loop2", 0x00F0_0001);
    found := GetAddrForSymbol(t, "Loop1");
    missing := GetAddrForSymbol(t, "Loop2");
  }

  /** A non-unique table keeps duplicate names, grows past its initial two
      slots, and lookup answers with the earliest record. */
  method NonUniqueTable() returns (results: seq<int>, found: int, size: nat, capacity: nat)
    ensures results == [0, 0, 0] && found == 0x0040_0000 && size == 3 && capacity == 4
  {
    var t := new SymbolTable(NonUnique);
    var a := t.Add("Label0", 0x0040_0000);
    var b := t.Add("Label0", 0x0040_0004);
    var c := t.Add("Label0", 0x0040_0008);
    results := [a, b, c];
    found := GetAddrForSymbol(t, "Label0");
    size, capacity := t.len, t.cap;
  }

  /** `j Foo` twice, from two addresses: both succeed and write the bare
      opcode word, and only the first adds a relocation record. */
  method RepeatedJump(u: Utils) returns (first: int, second: int, words: seq<Word>, relocs: seq<Symbol>)
    ensures first == 0 && second == 0
    ensures words == [0x0800_0000, 0x0800_0000]
    ensures relocs == [Symbol("Foo", 0x0040_0000)]
  {
    var out := new Output<Word>();
    var reltbl := new SymbolTable(NonUnique);
    assert Dispatch("j") == Some(Jump(0x02));
    first := TranslateInst(out, "j", ["Foo"], 0x0040_0000, null, reltbl, u);
    second := TranslateInst(out, "j", ["Foo"], 0x0040_0008, null, reltbl, u);
    words := out.records;
    relocs := reltbl.Entries();
  }
}
