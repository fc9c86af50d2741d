/** The symbol table: a growable array of (name, address) records, used both
    as the label table (unique names) and as the relocation table (names may
    repeat). */
module Tables {
  import opened Words
  import opened Streams

  /** `SYMTBL_NON_UNIQUE` and `SYMTBL_UNIQUE_NAME`. */
  datatype Mode = NonUnique | UniqueName

  datatype Symbol = Symbol(name: string, addr: Addr)

  ghost predicate NamesDistinct(s: seq<Symbol>)
  {
    forall i, j :: 0 <= i < j < |s| ==> s[i].name != s[j].name
  }

  ghost predicate AllAligned(s: seq<Symbol>)
  {
    forall i :: 0 <= i < |s| ==> s[i].addr % 4 == 0
  }

  /** The value of `get_addr_for_symbol` on a table holding `s`: the address
      of the first record named `name`, or -1. Addresses are unsigned, so -1
      never stands for a found symbol. */
  function FindAddr(s: seq<Symbol>, name: string): (r: int)
    ensures r == -1 || 0 <= r < 0x1_0000_0000
    ensures r == -1 <==> forall i :: 0 <= i < |s| ==> s[i].name != name
    ensures r != -1 ==>
      exists i :: 0 <= i < |s| && s[i].name == name && s[i].addr == r &&
                  forall j :: 0 <= j < i ==> s[j].name != name
  {
    if |s| == 0 then -1
    else if s[0].name == name then s[0].addr
    else
      var r := FindAddr(s[1..], name);
      assert r != -1 ==> (exists i :: 1 <= i < |s| && s[i].name == name && s[i].addr == r &&
                                 forall j :: 0 <= j < i ==> s[j].name != name) by {
        if r != -1 {
          var k :| 0 <= k < |s[1..]| && s[1..][k].name == name && s[1..][k].addr == r &&
            forall j :: 0 <= j < k ==> s[1..][j].name != name;
          assert forall j :: 0 <= j < k + 1 ==> s[j].name != name by {
            forall j | 0 <= j < k + 1 ensures s[j].name != name {
              if j > 0 { assert s[j] == s[1..][j - 1]; }
            }
          }
        }
      }
      r
  }

  /** Lookup after an append: an earlier record wins; otherwise the new one
      answers for its own name. */
  lemma {:induction false} FindAddrAppend(s: seq<Symbol>, e: Symbol, name: string)
    ensures FindAddr(s + [e], name) ==
      if FindAddr(s, name) != -1 then FindAddr(s, name)
      else if e.name == name then e.addr
      else -1
  {
    if |s| > 0 {
      assert (s + [e])[1..] == s[1..] + [e];
      FindAddrAppend(s[1..], e, name);
    }
  }

  /** Appending a name that lookup does not find keeps names distinct, and
      lookup then finds the new address. */
  lemma AppendFresh(s: seq<Symbol>, name: string, addr: Addr)
    requires FindAddr(s, name) == -1
    ensures NamesDistinct(s) ==> NamesDistinct(s + [Symbol(name, addr)])
    ensures FindAddr(s + [Symbol(name, addr)], name) == addr
  {
    FindAddrAppend(s, Symbol(name, addr), name);
  }

  class SymbolTable {
    /** the backing storage (`tbl`), of `cap` slots, the first `len` in use */
    var tbl: array<Symbol>
    var len: nat
    var cap: nat
    var mode: Mode

    ghost predicate Valid()
      reads this, tbl
    {
      && tbl.Length == cap
      && 2 <= cap
      && len <= cap
      && AllAligned(tbl[..len])
      && (mode == UniqueName ==> NamesDistinct(tbl[..len]))
    }

    /** The records in insertion order. */
    function Entries(): seq<Symbol>
      reads this, tbl
      requires len <= tbl.Length
    {
      tbl[..len]
    }

    /** `create_table(mode)`: empty, with room for two records. */
    constructor (mode: Mode)
      ensures Valid() && fresh(tbl)
      ensures len == 0 && cap == 2 && this.mode == mode && Entries() == []
    {
      tbl := new Symbol[2](_ => Symbol("", 0));
      cap := 2;
      len := 0;
      this.mode := mode;
    }

    /** `add_to_table(table, name, addr)`: rejects (-1, nothing changes) a
        misaligned address, and in unique mode a name already present;
        otherwise appends (name, addr), doubling the storage first when it is
        full, and returns 0. */
    method Add(name: string, addr: Addr) returns (r: int)
      requires Valid()
      modifies this, tbl
      ensures Valid() && mode == old(mode)
      ensures r == 0 || r == -1
      ensures r == -1 <==>
        addr % 4 != 0 || (mode == UniqueName && FindAddr(old(Entries()), name) != -1)
      ensures r == -1 ==> unchanged(this) && unchanged(old(tbl))
      ensures r == 0 ==> Entries() == old(Entries()) + [Symbol(name, addr)] && len == old(len) + 1
      ensures r == 0 ==> cap == if old(len) == old(cap) then 2 * old(cap) else old(cap)
      ensures tbl == old(tbl) || fresh(tbl)
    {
      if addr % 4 != 0 {
        return -1;
      }
      if mode == UniqueName {
        var found := GetAddrForSymbol(this, name);
        if found != -1 {
          return -1;
        }
      }
      ghost var was := Entries();
      if len >= cap {
        Grow();
      }
      tbl[len] := Symbol(name, addr);
      len := len + 1;
      assert tbl[..len] == was + [Symbol(name, addr)];
      if mode == UniqueName {
        AppendFresh(was, name, addr);
      }
      r := 0;
    }

    /** The `realloc` step of `add_to_table`: storage of twice the capacity,
        holding the same records. */
    method Grow()
      requires Valid()
      modifies this
      ensures Valid() && fresh(tbl)
      ensures cap == 2 * old(cap) && len == old(len) && mode == old(mode)
      ensures Entries() == old(Entries())
    {
      var newCap := cap * 2;
      var oldTbl := tbl;
      tbl := new Symbol[newCap](i reads oldTbl => if 0 <= i < oldTbl.Length then oldTbl[i] else Symbol("", 0));
      cap := newCap;
      assert tbl[..len] == oldTbl[..len];
    }
  }

  /** The records of a possibly NULL table; a NULL table holds none. */
  function Labels(t: SymbolTable?): seq<Symbol>
    reads if t != null then {t, t.tbl} else {}
    requires t != null ==> t.len <= t.tbl.Length
  {
    if t == null then [] else t.Entries()
  }

  /** `get_addr_for_symbol(table, name)`: a linear scan in insertion order;
      -1 on a miss or a NULL table. */
  method GetAddrForSymbol(table: SymbolTable?, name: string) returns (r: int)
    requires table != null ==> table.Valid()
    ensures r == if table == null then -1 else FindAddr(table.Entries(), name)
  {
    if table == null {
      return -1;
    }
    var i := 0;
    while i < table.len
      invariant 0 <= i <= table.len
      invariant FindAddr(table.Entries(), name) == FindAddr(table.tbl[i..table.len], name)
    {
      assert table.tbl[i..table.len][1..] == table.tbl[i + 1..table.len];
      if table.tbl[i].name == name {
        return table.tbl[i].addr;
      }
      i := i + 1;
    }
    return -1;
  }

  /** `write_table(table, output)`: one (address, name) line per record, in
      insertion order, and nothing else; nothing for a NULL table. */
  method WriteTable(table: SymbolTable?, output: Output<Symbol>)
    requires table != null ==> table.Valid()
    modifies output
    ensures output.records == old(output.records) + (if table == null then [] else table.Entries())
  {
    if table == null {
      return;
    }
    var i := 0;
    while i < table.len
      invariant 0 <= i <= table.len
      invariant output.records == old(output.records) + table.tbl[..i]
    {
      output.Write(table.tbl[i]);
      assert table.tbl[..i + 1] == table.tbl[..i] + [table.tbl[i]];
      i := i + 1;
    }
    assert table.tbl[..table.len] == table.Entries();
  }
}
