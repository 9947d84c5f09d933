/**
 * The SymbolTable of the Hack assembler (06/assembler.cpp): a map from
 * symbols to addresses that starts out holding the predefined symbols and
 * grows as labels and variables are added.
 */
module AsmSymbols {
  import opened Text

  /** The name of register i: "R" and i in decimal, as `std::to_string` writes it. */
  function RegName(i: nat): string {
    "R" + NatStr(i)
  }

  /** The five VM pointers: SP, LCL, ARG, THIS and THAT are cells 0 to 4. */
  function Pointers(): map<string, int> {
    map["SP" := 0, "LCL" := 1, "ARG" := 2, "THIS" := 3, "THAT" := 4]
  }

  /** t with R0 .. R(n-1) set to 0 .. n-1, later ones last. */
  function WithRegisters(t: map<string, int>, n: nat): map<string, int> {
    if n == 0 then t else WithRegisters(t, n - 1)[RegName(n - 1) := n - 1]
  }

  /** The table a new SymbolTable holds. */
  function Predefined(): map<string, int> {
    WithRegisters(Pointers(), 16)["SCREEN" := 16384]["KBD" := 24576]
  }

  class SymbolTable {
    var table: map<string, int>

    /** Enters the predefined symbols, the registers in a loop. */
    constructor ()
      ensures table == Predefined()
    {
      var t := map[];
      t := t["SP" := 0];
      t := t["LCL" := 1];
      t := t["ARG" := 2];
      t := t["THIS" := 3];
      t := t["THAT" := 4];
      assert t == Pointers();
      var i := 0;
      while i < 16
        invariant 0 <= i <= 16
        invariant t == WithRegisters(Pointers(), i)
      {
        t := t[RegName(i) := i];
        i := i + 1;
      }
      t := t["SCREEN" := 16384];
      t := t["KBD" := 24576];
      table := t;
    }

    /** `addEntry`: the symbol now has this address; nothing else changes. */
    method AddEntry(symbol: string, address: int)
      modifies this
      ensures table == old(table)[symbol := address]
    {
      table := table[symbol := address];
    }

    /** `contains`. */
    predicate Contains(symbol: string)
      reads this
    {
      symbol in table
    }

    /**
     * `getAddress`: the address of the symbol. Like `std::map::operator[]`,
     * it first enters a symbol that is not there with address 0.
     */
    method GetAddress(symbol: string) returns (address: int)
      modifies this
      ensures symbol in old(table) ==> address == old(table)[symbol] && table == old(table)
      ensures symbol !in old(table) ==> address == 0 && table == old(table)[symbol := 0]
    {
      if symbol !in table {
        table := table[symbol := 0];
      }
      address := table[symbol];
    }
  }

  /** Distinct registers have distinct names. */
  lemma RegNameInjective(i: nat, j: nat)
    ensures RegName(i) == RegName(j) <==> i == j
  {
    assert RegName(i)[1..] == NatStr(i);
    assert RegName(j)[1..] == NatStr(j);
    NatStrInjective(i, j);
  }

  /** Register i of R0 .. R(n-1) is set to i; other names keep their value. */
  lemma {:induction false} WithRegistersLookup(t: map<string, int>, n: nat, s: string)
    ensures forall i: nat :: i < n && s == RegName(i) ==> s in WithRegisters(t, n) && WithRegisters(t, n)[s] == i
    ensures (forall i: nat :: i < n ==> s != RegName(i)) ==>
      (s in WithRegisters(t, n) <==> s in t) && (s in t ==> WithRegisters(t, n)[s] == t[s])
  {
    if n > 0 {
      WithRegistersLookup(t, n - 1, s);
      forall i: nat | i < n - 1 && s == RegName(i)
        ensures s != RegName(n - 1)
      {
        RegNameInjective(i, n - 1);
      }
    }
  }

  /** A name that does not start with 'R' is no register's, so the registers leave it as it is. */
  lemma {:induction false} NonRegisterKept(t: map<string, int>, n: nat, s: string)
    requires s == [] || s[0] != 'R'
    ensures s in WithRegisters(t, n) <==> s in t
    ensures s in t ==> WithRegisters(t, n)[s] == t[s]
  {
    if n > 0 {
      assert RegName(n - 1)[0] == 'R';
      NonRegisterKept(t, n - 1, s);
    }
  }

  /**
   * A new table maps SP, LCL, ARG, THIS and THAT to 0 .. 4, and SCREEN and
   * KBD to 16384 and 24576.
   */
  lemma PredefinedPointers()
    ensures var t := Predefined();
      && "SP" in t && "LCL" in t && "ARG" in t && "THIS" in t && "THAT" in t && "SCREEN" in t && "KBD" in t
      && t["SP"] == 0 && t["LCL"] == 1 && t["ARG"] == 2 && t["THIS"] == 3 && t["THAT"] == 4
      && t["SCREEN"] == 16384 && t["KBD"] == 24576
  {
    NonRegisterKept(Pointers(), 16, "SP");
    NonRegisterKept(Pointers(), 16, "LCL");
    NonRegisterKept(Pointers(), 16, "ARG");
    NonRegisterKept(Pointers(), 16, "THIS");
    NonRegisterKept(Pointers(), 16, "THAT");
  }

  /** A new table maps each register name Ri, for i below 16, to i. */
  lemma PredefinedRegisters(i: nat)
    requires i < 16
    ensures RegName(i) in Predefined() && Predefined()[RegName(i)] == i
  {
    WithRegistersLookup(Pointers(), 16, RegName(i));
    assert RegName(i)[0] == 'R';
  }
}
