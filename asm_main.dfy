/**
 * The driver of the Hack assembler (06/assembler.cpp): a first pass that
 * enters each label with the address of the instruction after it, and a
 * second pass that resolves each A-command's operand (a number, a known
 * symbol or a new variable from address 16 on), encodes each C-command,
 * and prints every word as sixteen binary digits.
 */
module AsmMain {
  import opened Text
  import Hack
  import opened AsmParser
  import opened AsmSymbols
  import opened AsmCode
  import opened AsmEncode

  // ---------------------------------------------------------------------
  // The first pass
  // ---------------------------------------------------------------------

  /** c is the label declaration "(s)". */
  predicate IsLabel(c: string, s: string) {
    KindOf(c) == LCommand && Symbol(c) == s
  }

  /** The number of commands that become words: all but the labels. */
  function NonLabelCount(cmds: seq<string>): (n: nat)
    ensures n <= |cmds|
  {
    if cmds == [] then 0
    else NonLabelCount(cmds[..|cmds| - 1]) + (if KindOf(cmds[|cmds| - 1]) == LCommand then 0 else 1)
  }

  /**
   * The table after the first pass over cmds: each label is entered with
   * the count of the non-label commands before it, a later declaration
   * overwriting an earlier one.
   */
  function Labels(t: map<string, int>, cmds: seq<string>): map<string, int> {
    if cmds == [] then t
    else
      var init := cmds[..|cmds| - 1];
      var c := cmds[|cmds| - 1];
      if KindOf(c) == LCommand then Labels(t, init)[Symbol(c) := NonLabelCount(init)] else Labels(t, init)
  }

  /** The position of the last declaration of the label s, if there is one. */
  function LastLabel(cmds: seq<string>, s: string): (r: Option<nat>)
    ensures r.Some? ==> r.value < |cmds| && IsLabel(cmds[r.value], s)
    ensures r.Some? ==> forall k :: r.value < k < |cmds| ==> !IsLabel(cmds[k], s)
    ensures r.None? ==> forall k :: 0 <= k < |cmds| ==> !IsLabel(cmds[k], s)
  {
    if cmds == [] then None
    else if IsLabel(cmds[|cmds| - 1], s) then Some(|cmds| - 1)
    else LastLabel(cmds[..|cmds| - 1], s)
  }

  /**
   * After the first pass a declared label holds the number of non-label
   * commands before its last declaration; any other symbol keeps what it
   * had.
   */
  lemma {:induction false} LabelsLookup(t: map<string, int>, cmds: seq<string>, s: string)
    ensures LastLabel(cmds, s).Some? ==>
      s in Labels(t, cmds) && Labels(t, cmds)[s] == NonLabelCount(cmds[..LastLabel(cmds, s).value])
    ensures LastLabel(cmds, s).None? ==>
      (s in Labels(t, cmds) <==> s in t) && (s in t ==> Labels(t, cmds)[s] == t[s])
  {
    if cmds != [] {
      var init := cmds[..|cmds| - 1];
      if !IsLabel(cmds[|cmds| - 1], s) {
        LabelsLookup(t, init, s);
        if LastLabel(cmds, s).Some? {
          var k := LastLabel(cmds, s).value;
          assert init[..k] == cmds[..k];
        }
      }
    }
  }

  /**
   * A label's entry is the number of words written before its last
   * declaration, so it addresses the instruction that follows it.
   */
  lemma LabelAddressesNextWord(t: map<string, int>, u: map<string, int>, next: int, cmds: seq<string>, s: string)
    requires LastLabel(cmds, s).Some?
    ensures s in Labels(t, cmds)
    ensures Labels(t, cmds)[s] == |Encode(u, next, cmds[..LastLabel(cmds, s).value]).words|
  {
    LabelsLookup(t, cmds, s);
    EncodeCount(u, next, cmds[..LastLabel(cmds, s).value]);
  }

  /** The first `while` loop of `main`, from wherever the parser's index is. */
  method FirstPass(p: Parser, st: SymbolTable)
    requires p.idx <= |p.commands|
    modifies p, st
    ensures p.commands == old(p.commands) && p.idx == |p.commands|
    ensures st.table == Labels(old(st.table), old(p.commands[p.idx..]))
  {
    ghost var cmds := p.commands[p.idx..];
    ghost var start := p.idx;
    var address := 0;
    assert cmds[..0] == [];
    while p.HasMoreCommands()
      invariant p.commands == old(p.commands) && start <= p.idx <= |p.commands|
      invariant cmds == p.commands[start..]
      invariant st.table == Labels(old(st.table), cmds[..p.idx - start])
      invariant address == NonLabelCount(cmds[..p.idx - start])
      decreases |p.commands| - p.idx
    {
      ghost var k := p.idx - start;
      p.Advance();
      var c := p.currentCommand;
      assert c == cmds[k] && cmds[..k + 1][..k] == cmds[..k];
      if KindOf(c) == LCommand {
        st.AddEntry(Symbol(c), address);
      } else {
        address := address + 1;
      }
    }
    assert cmds[..p.idx - start] == cmds;
  }

  // ---------------------------------------------------------------------
  // The second pass
  // ---------------------------------------------------------------------

  /** The operand test of `main`: the symbol's first character is a decimal digit. */
  predicate IsNumeral(s: string) {
    s != [] && IsDigit(s[0])
  }

  /** The address an A-command's operand stands for, and the table and next variable after it. */
  datatype Resolution = Resolution(address: int, table: map<string, int>, next: int)

  /**
   * A numeral stands for its value, a symbol in the table for its entry,
   * and any other symbol is entered at address `next`, which moves on.
   */
  function Resolve(t: map<string, int>, next: int, s: string): Resolution {
    if IsNumeral(s) then Resolution(Stoi(s).value, t, next)
    else if s in t then Resolution(t[s], t, next)
    else Resolution(next, t[s := next], next + 1)
  }

  /** The word of a C-command: the codes of its three fields. */
  function CCommandWord(c: string): Hack.Word {
    CWord(CompCode(Comp(c)), DestCode(Dest(c)), JumpCode(Jump(c)))
  }

  /** The words written so far, the table and the next variable address. */
  datatype Pass = Pass(words: seq<Hack.Word>, table: map<string, int>, next: int)

  /** What one command does to the second pass: a label nothing, the others write a word. */
  function Step(p: Pass, c: string): Pass {
    match KindOf(c)
    case LCommand => p
    case ACommand =>
      var r := Resolve(p.table, p.next, Symbol(c));
      Pass(p.words + [Hack.W(r.address)], r.table, r.next)
    case CCommand => Pass(p.words + [CCommandWord(c)], p.table, p.next)
  }

  /** The second pass over cmds, from table t and next variable address next. */
  function Encode(t: map<string, int>, next: int, cmds: seq<string>): Pass {
    if cmds == [] then Pass([], t, next) else Step(Encode(t, next, cmds[..|cmds| - 1]), cmds[|cmds| - 1])
  }

  /** The pass over one more command is one more step. */
  lemma EncodePrefix(t: map<string, int>, next: int, cmds: seq<string>, k: nat)
    requires k < |cmds|
    ensures Encode(t, next, cmds[..k + 1]) == Step(Encode(t, next, cmds[..k]), cmds[k])
  {
    assert cmds[..k + 1][..k] == cmds[..k];
  }

  /** Each command but a label writes exactly one word. */
  lemma {:induction false} EncodeCount(t: map<string, int>, next: int, cmds: seq<string>)
    ensures |Encode(t, next, cmds).words| == NonLabelCount(cmds)
  {
    if cmds != [] {
      EncodeCount(t, next, cmds[..|cmds| - 1]);
    }
  }

  /** u holds every entry of t unchanged. */
  predicate Extends(t: map<string, int>, u: map<string, int>) {
    forall s :: s in t ==> s in u && u[s] == t[s]
  }

  /**
   * The symbols u adds to t are the variables from address `next` up to
   * `last`: each sits in that range, no two share an address, and every
   * address of the range is taken.
   */
  predicate Allocated(t: map<string, int>, next: int, u: map<string, int>, last: int) {
    && next <= last
    && (forall s :: s in u && s !in t ==> next <= u[s] < last)
    && (forall s, s' :: s in u && s !in t && s' in u && s' !in t && s != s' ==> u[s] != u[s'])
    && (forall a :: next <= a < last ==> Taken(t, u, a))
  }

  /** Some symbol that u adds to t has address a. */
  predicate Taken(t: map<string, int>, u: map<string, int>, a: int) {
    exists s :: s in u && s !in t && u[s] == a
  }

  /** Entering a new symbol at the next address keeps the allocation consecutive. */
  lemma AllocateOne(t: map<string, int>, next: int, u: map<string, int>, last: int, s: string)
    requires Extends(t, u) && Allocated(t, next, u, last) && s !in u
    ensures Extends(t, u[s := last]) && Allocated(t, next, u[s := last], last + 1)
  {
    var v := u[s := last];
    forall a | next <= a < last + 1
      ensures Taken(t, v, a)
    {
      if a == last {
        assert s in v && s !in t && v[s] == a;
      } else {
        assert Taken(t, u, a);
        var x :| x in u && x !in t && u[x] == a;
        assert x in v && x !in t && v[x] == a;
      }
    }
  }

  /**
   * The second pass keeps every entry it starts with and enters new
   * symbols only at consecutive fresh addresses from `next` on.
   */
  lemma {:induction false} EncodeTable(t: map<string, int>, next: int, cmds: seq<string>)
    ensures var p := Encode(t, next, cmds);
      Extends(t, p.table) && Allocated(t, next, p.table, p.next)
  {
    if cmds != [] {
      var init := cmds[..|cmds| - 1];
      var c := cmds[|cmds| - 1];
      var p := Encode(t, next, init);
      EncodeTable(t, next, init);
      if KindOf(c) == ACommand && !IsNumeral(Symbol(c)) && Symbol(c) !in p.table {
        AllocateOne(t, next, p.table, p.next, Symbol(c));
      }
    }
  }

  /** Extends is transitive. */
  lemma ExtendsTrans(t: map<string, int>, u: map<string, int>, v: map<string, int>)
    requires Extends(t, u) && Extends(u, v)
    ensures Extends(t, v)
  {
  }

  /** Encoding a + b is encoding a and then b from where a left off. */
  lemma {:induction false} EncodeAppend(t: map<string, int>, next: int, a: seq<string>, b: seq<string>)
    ensures var p := Encode(t, next, a);
      var q := Encode(p.table, p.next, b);
      Encode(t, next, a + b) == Pass(p.words + q.words, q.table, q.next)
    decreases |b|
  {
    var p := Encode(t, next, a);
    if b == [] {
      assert a + b == a;
    } else {
      var init := b[..|b| - 1];
      assert (a + b)[..|a + b| - 1] == a + init;
      assert (a + b)[|a + b| - 1] == b[|b| - 1];
      EncodeAppend(t, next, a, init);
      var q := Encode(p.table, p.next, init);
      SeqAssoc(p.words, q.words, Encode(p.table, p.next, b).words[|q.words|..]);
      EncodeSnoc(p.table, p.next, b);
    }
  }

  /** The words of a longer run extend those of its prefix. */
  lemma EncodeSnoc(t: map<string, int>, next: int, cmds: seq<string>)
    requires cmds != []
    ensures var p := Encode(t, next, cmds[..|cmds| - 1]).words;
      var q := Encode(t, next, cmds).words;
      |p| <= |q| && q == p + q[|p|..]
  {
  }

  /** The address the A-command at position k resolves to. */
  function AddressAt(t: map<string, int>, next: int, cmds: seq<string>, k: nat): int
    requires k < |cmds| && KindOf(cmds[k]) == ACommand
  {
    var p := Encode(t, next, cmds[..k]);
    Resolve(p.table, p.next, Symbol(cmds[k])).address
  }

  /** The word the A-command at position k writes is its address. */
  lemma AddressWord(t: map<string, int>, next: int, cmds: seq<string>, k: nat)
    requires k < |cmds| && KindOf(cmds[k]) == ACommand
    ensures var ws := Encode(t, next, cmds[..k + 1]).words;
      ws != [] && ws[|ws| - 1] == Hack.W(AddressAt(t, next, cmds, k))
  {
    assert cmds[..k + 1][..k] == cmds[..k];
  }

  /** A table entry stays put through any later stretch of the second pass. */
  lemma EntryKept(t: map<string, int>, next: int, cmds: seq<string>, k: nat, s: string)
    requires k <= |cmds| && s in Encode(t, next, cmds[..k]).table
    ensures s in Encode(t, next, cmds).table
    ensures Encode(t, next, cmds).table[s] == Encode(t, next, cmds[..k]).table[s]
  {
    var p := Encode(t, next, cmds[..k]);
    SplitAt(cmds, k);
    EncodeAppend(t, next, cmds[..k], cmds[k..]);
    EncodeTable(p.table, p.next, cmds[k..]);
  }

  /** After a symbolic A-command the table holds its operand at the address it resolved to. */
  lemma ResolvedEntry(t: map<string, int>, next: int, cmds: seq<string>, k: nat)
    requires k < |cmds| && KindOf(cmds[k]) == ACommand && !IsNumeral(Symbol(cmds[k]))
    ensures var u := Encode(t, next, cmds[..k + 1]).table;
      Symbol(cmds[k]) in u && u[Symbol(cmds[k])] == AddressAt(t, next, cmds, k)
  {
    assert cmds[..k + 1][..k] == cmds[..k];
  }

  lemma SplitAt<T>(s: seq<T>, k: nat)
    requires k <= |s|
    ensures s == s[..k] + s[k..]
  {
  }

  /** Two uses of the same operand resolve to the same address, however far apart. */
  lemma SameSymbolSameAddress(t: map<string, int>, next: int, cmds: seq<string>, i: nat, j: nat)
    requires i < j < |cmds| && KindOf(cmds[i]) == ACommand && KindOf(cmds[j]) == ACommand
    requires Symbol(cmds[i]) == Symbol(cmds[j])
    ensures AddressAt(t, next, cmds, i) == AddressAt(t, next, cmds, j)
  {
    if !IsNumeral(Symbol(cmds[i])) {
      SymbolicSameAddress(t, next, cmds, i, j);
    } else {
      NumeralAddress(t, next, cmds, i);
      NumeralAddress(t, next, cmds, j);
    }
  }

  lemma SymbolicSameAddress(t: map<string, int>, next: int, cmds: seq<string>, i: nat, j: nat)
    requires i < j < |cmds| && KindOf(cmds[i]) == ACommand && KindOf(cmds[j]) == ACommand
    requires Symbol(cmds[i]) == Symbol(cmds[j]) && !IsNumeral(Symbol(cmds[i]))
    ensures AddressAt(t, next, cmds, i) == AddressAt(t, next, cmds, j)
  {
    var s := Symbol(cmds[i]);
    var pre := cmds[..j];
    ResolvedEntry(t, next, cmds, i);
    var ui := Encode(t, next, cmds[..i + 1]).table;
    assert s in ui && ui[s] == AddressAt(t, next, cmds, i);
    assert pre[..i + 1] == cmds[..i + 1];
    EntryKept(t, next, pre, i + 1, s);
    var uj := Encode(t, next, pre).table;
    assert s in uj && uj[s] == ui[s];
    KnownOperand(t, next, cmds, j);
  }

  /** A numeric operand resolves to its own value. */
  lemma NumeralAddress(t: map<string, int>, next: int, cmds: seq<string>, k: nat)
    requires k < |cmds| && KindOf(cmds[k]) == ACommand && IsNumeral(Symbol(cmds[k]))
    ensures AddressAt(t, next, cmds, k) == Stoi(Symbol(cmds[k])).value
  {
  }

  /** A symbolic operand already in the table resolves to its entry. */
  lemma KnownOperand(t: map<string, int>, next: int, cmds: seq<string>, k: nat)
    requires k < |cmds| && KindOf(cmds[k]) == ACommand && !IsNumeral(Symbol(cmds[k]))
    requires Symbol(cmds[k]) in Encode(t, next, cmds[..k]).table
    ensures AddressAt(t, next, cmds, k) == Encode(t, next, cmds[..k]).table[Symbol(cmds[k])]
  {
  }

  /**
   * An operand that names a label resolves to the label's entry whenever
   * the pass starts from the table of the first pass.
   */
  lemma LabelResolves(cmds: seq<string>, k: nat)
    requires k < |cmds| && KindOf(cmds[k]) == ACommand
    requires !IsNumeral(Symbol(cmds[k])) && LastLabel(cmds, Symbol(cmds[k])).Some?
    ensures AddressAt(Labels(Predefined(), cmds), 16, cmds, k)
      == NonLabelCount(cmds[..LastLabel(cmds, Symbol(cmds[k])).value])
  {
    var s := Symbol(cmds[k]);
    var t := Labels(Predefined(), cmds);
    LabelsLookup(Predefined(), cmds, s);
    EncodeTable(t, 16, cmds[..k]);
  }

  /**
   * The operand of an A-command in the second pass: a numeral's value, a
   * known symbol's entry, or else varAddress, at which the symbol is
   * entered and which moves on.
   */
  method ResolveOperand(st: SymbolTable, s: string, varAddress: int) returns (a: int, next: int)
    modifies st
    ensures Resolution(a, st.table, next) == Resolve(old(st.table), varAddress, s)
  {
    next := varAddress;
    if s != [] && IsDigit(s[0]) {
      a := Stoi(s).value;
    } else if st.Contains(s) {
      a := st.GetAddress(s);
    } else {
      st.AddEntry(s, varAddress);
      a := varAddress;
      next := varAddress + 1;
    }
  }

  /**
   * The body of the second loop for the command c: an A-command writes its
   * operand's address, a C-command the word of its fields, a label nothing.
   */
  method WriteCommand(st: SymbolTable, c: string, varAddress: int, ghost words: seq<Hack.Word>, out: seq<string>)
    returns (out': seq<string>, next: int, ghost words': seq<Hack.Word>)
    requires out == Texts(words)
    modifies st
    ensures Pass(words', st.table, next) == Step(Pass(words, old(st.table), varAddress), c)
    ensures out' == Texts(words')
  {
    out', next, words' := out, varAddress, words;
    var kind := KindOf(c);
    if kind == ACommand {
      var a;
      a, next := ResolveOperand(st, Symbol(c), varAddress);
      TextsSnoc(words, Hack.W(a));
      out' := out + [WordText(Hack.W(a))];
      words' := words + [Hack.W(a)];
    }
    if kind == CCommand {
      var cc := CompCode(Comp(c));
      var d := DestCode(Dest(c));
      var j := JumpCode(Jump(c));
      var w := CWord(cc, d, j);
      TextsSnoc(words, w);
      out' := out + [WordText(w)];
      words' := words + [w];
    }
  }

  /**
   * A C-command with known mnemonics prints as "111" and its comp, dest
   * and jump codes, which can be read back from the word.
   */
  lemma CCommandLine(c: string)
    requires IsComp(Comp(c)) && Dest(c) in DestTable && Jump(c) in JumpTable
    ensures WordText(CCommandWord(c))[..3] == "111"
    ensures var w := CCommandWord(c);
      && (w / 64) % 128 == CompCode(Comp(c)) && (w / 8) % 8 == DestCode(Dest(c)) && w % 8 == JumpCode(Jump(c))
  {
    KnownFieldsInRange(Comp(c), Dest(c), Jump(c));
    CWordText(CompCode(Comp(c)), DestCode(Dest(c)), JumpCode(Jump(c)));
  }

  /** The second `while` loop of `main`, from wherever the parser's index is. */
  method SecondPass(p: Parser, st: SymbolTable) returns (out: seq<string>)
    requires p.idx <= |p.commands|
    modifies p, st
    ensures p.commands == old(p.commands) && p.idx == |p.commands|
    ensures var r := Encode(old(st.table), 16, old(p.commands[p.idx..]));
      out == Texts(r.words) && st.table == r.table
  {
    ghost var cmds := p.commands[p.idx..];
    ghost var start := p.idx;
    ghost var t0 := st.table;
    ghost var words: seq<Hack.Word> := [];
    var varAddress := 16;
    out := [];
    assert cmds[..0] == [];
    while p.HasMoreCommands()
      invariant p.commands == old(p.commands) && start <= p.idx <= |p.commands|
      invariant cmds == p.commands[start..]
      invariant Encode(t0, 16, cmds[..p.idx - start]) == Pass(words, st.table, varAddress)
      invariant out == Texts(words)
      decreases |p.commands| - p.idx
    {
      ghost var k := p.idx - start;
      p.Advance();
      var c := p.currentCommand;
      EncodePrefix(t0, 16, cmds, k);
      out, varAddress, words := WriteCommand(st, c, varAddress, words, out);
    }
    assert cmds[..p.idx - start] == cmds;
  }

  // ---------------------------------------------------------------------
  // The program
  // ---------------------------------------------------------------------

  /** The printed lines of a run of words. */
  function Texts(ws: seq<Hack.Word>): (r: seq<string>)
    ensures |r| == |ws|
    ensures forall k :: 0 <= k < |ws| ==> r[k] == WordText(ws[k])
  {
    if ws == [] then [] else Texts(ws[..|ws| - 1]) + [WordText(ws[|ws| - 1])]
  }

  lemma TextsSnoc(ws: seq<Hack.Word>, w: Hack.Word)
    ensures Texts(ws + [w]) == Texts(ws) + [WordText(w)]
  {
    assert (ws + [w])[..|ws|] == ws;
  }

  /** `substr(0, size() - 4) + ".hack"`; a name shorter than 4 is kept whole, as the unsigned length wraps. */
  function OutputName(infile: string): string {
    (if |infile| >= 4 then infile[..|infile| - 4] else infile) + ".hack"
  }

  /** X.asm is written to X.hack. */
  lemma OutputNameOfAsm(x: string)
    ensures OutputName(x + ".asm") == x + ".hack"
  {
    assert (x + ".asm")[..|x|] == x;
  }

  /** What `main` writes for a file with these lines: both passes over its commands. */
  function AssembleLines(lines: seq<string>): seq<string> {
    var cmds := CleanAsmAll(lines);
    Texts(Encode(Labels(Predefined(), cmds), 16, cmds).words)
  }

  /**
   * One line per command that is not a label, each of sixteen binary
   * digits that read back as the word.
   */
  lemma AssembleLinesShape(lines: seq<string>)
    ensures |AssembleLines(lines)| == NonLabelCount(CleanAsmAll(lines))
    ensures forall k :: 0 <= k < |AssembleLines(lines)| ==>
      |AssembleLines(lines)[k]| == 16 && IsBinary(AssembleLines(lines)[k])
  {
    var cmds := CleanAsmAll(lines);
    var ws := Encode(Labels(Predefined(), cmds), 16, cmds).words;
    EncodeCount(Labels(Predefined(), cmds), 16, cmds);
    forall k | 0 <= k < |ws|
      ensures |Texts(ws)[k]| == 16 && IsBinary(Texts(ws)[k])
    {
      WordTextRoundTrip(ws[k]);
    }
  }

  /**
   * `main`: the Parser, the Code tables and a new SymbolTable, the first
   * pass, `reset`, and the second pass, whose lines go to the output file.
   */
  method Assemble(infile: string, lines: seq<string>) returns (outfile: string, out: seq<string>)
    ensures outfile == OutputName(infile)
    ensures out == AssembleLines(lines)
  {
    outfile := (if |infile| >= 4 then infile[..|infile| - 4] else infile) + ".hack";
    var parser := new Parser(lines);
    var table := new SymbolTable();
    FirstPass(parser, table);
    parser.Reset();
    out := SecondPass(parser, table);
  }
}
