/**
 * The early VM translator (07/vm_translator.cpp): one ".vm" file in, one
 * ".asm" file out, arithmetic, push and pop only. Its CodeWriter uses the
 * Early dialect of the templates of module VmCode: a binary operation and
 * a pop take the top of the stack in three instructions, pop keeps its
 * target in the cell of the symbol `address`, and the static symbol is the
 * module name followed directly by the index.
 *
 * Its `main` passes the OUTPUT path to `setFileName`, so the module name
 * keeps the '.' before "asm": static symbols come out as `Name.i`, the same
 * symbols the full translator writes (lemma StaticMatchesFull).
 */
module EarlyTranslator {
  import opened Text
  import opened Hack
  import opened VmCode
  import opened VmParser
  import opened VmText
  import VmProgram

  /** `main`: the input path without its last three characters, then ".asm". */
  function OutputPath(infile: string): (out: string)
    ensures EndsWith(out, ".asm")
    ensures EndsWith(infile, ".vm") ==> out == infile[..|infile| - 3] + ".asm"
  {
    var r := (if |infile| >= 3 then infile[..|infile| - 3] else infile) + ".asm";
    assert r[|r| - 4..] == ".asm";
    r
  }

  class CodeWriter {
    /** The file opened by `setFileName`, and the lines written to it so far. */
    var outPath: string
    var out: seq<string>
    /** The module name, for static symbols. */
    var filename: string
    /** The counter that numbers comparison labels. */
    var labelCnt: nat

    constructor ()
      ensures outPath == "" && out == [] && filename == "" && labelCnt == 0
    {
      outPath := "";
      out := [];
      filename := "";
      labelCnt := 0;
    }

    /**
     * `setFileName`: opens filepath, empty, for writing, and takes the
     * base name of filepath without its last three characters as the
     * module name.
     */
    method SetFileName(filepath: string)
      modifies this`outPath, this`out, this`filename
      ensures outPath == filepath && out == []
      ensures filename == ModuleName(filepath)
    {
      outPath := filepath;
      out := [];
      var i: int := match LastIndex(filepath, c => c == '/') case None => -1 case Some(k) => k;
      var len := |filepath| - (i + 1) - 3;
      if len >= 0 {
        filename := filepath[i + 1..i + 1 + len];
      } else {
        filename := filepath[i + 1..];
      }
    }

    /**
     * `writeArithmetic`: not and neg rewrite the top in place; add, sub,
     * or and and pop once and combine; anything else is a comparison
     * numbered by labelCnt, which it then increments.
     */
    method WriteArithmetic(command: string)
      modifies this`out, this`labelCnt
      ensures out == old(out) + Lines(ArithmeticCode(Early, command, old(labelCnt)))
      ensures labelCnt == old(labelCnt) + (if IsComparison(command) then 1 else 0)
    {
      var n := labelCnt;
      if command == "not" {
        NotText(Early, n);
        out := out + ["@SP", "A=M-1", "M=!M"];
        return;
      } else if command == "neg" {
        NegText(Early, n);
        out := out + ["@SP", "A=M-1", "M=-M"];
        return;
      }
      EmitOperands();
      if command == "add" || command == "sub" || command == "or" || command == "and" {
        EmitBinary(command);
        BinaryLines(old(out), Early, command, n);
      } else {
        EmitCompareTest(command, n);
        EmitFalseBranch(n);
        EmitTrueBranch(n);
        labelCnt := labelCnt + 1;
        CompareLines(old(out), Early, command, n);
      }
    }

    /** Pop y into D (SP first, then A from it) and point A at x. */
    method EmitOperands()
      modifies this`out
      ensures out == old(out) + Lines(OperandsCode(Early))
    {
      OperandsEarlyText();
      out := out + ["@SP", "M=M-1", "A=M", "D=M", "@SP", "A=M-1"];
    }

    /** Combine x and y in place for add, sub, or and and. */
    method EmitBinary(command: string)
      requires command == "add" || command == "sub" || command == "or" || command == "and"
      modifies this`out
      ensures out == old(out) + Lines([Set(DestM, BinaryComp(command))])
    {
      BinaryText(command);
      if command == "add" {
        out := out + ["M=M+D"];
      } else if command == "sub" {
        out := out + ["M=M-D"];
      } else if command == "or" {
        out := out + ["M=M|D"];
      } else {
        out := out + ["M=M&D"];
      }
    }

    /** D := x - y and jump to TRUEn when the comparison holds. */
    method EmitCompareTest(command: string, n: nat)
      modifies this`out
      ensures out == old(out) + Lines(CompareTest(command, n))
    {
      CompareTestText(command, n);
      out := out + ["D=M-D", "@TRUE" + NatStr(n)];
      if command == "eq" {
        out := out + ["D;JEQ"];
      } else if command == "gt" {
        out := out + ["D;JGT"];
      } else {
        out := out + ["D;JLT"];
      }
    }

    method EmitFalseBranch(n: nat)
      modifies this`out
      ensures out == old(out) + Lines(FalseBranch(n))
    {
      FalseBranchText(n);
      out := out + ["@SP", "A=M-1", "M=0", "@END" + NatStr(n), "0;JMP"];
    }

    method EmitTrueBranch(n: nat)
      modifies this`out
      ensures out == old(out) + Lines(TrueBranch(n))
    {
      TrueBranchText(n);
      out := out + ["(TRUE" + NatStr(n) + ")", "@SP", "A=M-1", "M=-1", "(END" + NatStr(n) + ")"];
    }

    /**
     * `writePushPop`: push reads the value (the index itself for
     * constant) into D and pushes it; pop keeps the target address in
     * `address`, pops into D and stores it there.
     */
    method WritePushPop(command: CommandType, segment: string, index: nat)
      modifies this`out
      ensures out == old(out) + Lines(
        if command == Push then PushCode(Early, filename, segment, index) else PopCode(Early, filename, segment, index))
    {
      if command == Push {
        if segment == "constant" {
          EmitConstant(index);
          EmitPushTail();
          PushConstantLines(old(out), Early, filename, index);
        } else {
          GetAddress(segment, index);
          EmitRead();
          EmitPushTail();
          PushSegmentLines(old(out), Early, filename, segment, index);
        }
      } else {
        GetAddress(segment, index);
        EmitPopSave();
        EmitPopLoad();
        EmitPopStore();
        PopLines(old(out), Early, filename, segment, index);
      }
    }

    method EmitConstant(index: nat)
      modifies this`out
      ensures out == old(out) + Lines([AtNum(index), Set(DestD, RegA)])
    {
      ConstantReadText(index);
      out := out + ["@" + NatStr(index), "D=A"];
    }

    method EmitRead()
      modifies this`out
      ensures out == old(out) + Lines([Set(DestD, RegM)])
    {
      ReadText();
      out := out + ["D=M"];
    }

    /** Write D to the stack, then increment SP. */
    method EmitPushTail()
      modifies this`out
      ensures out == old(out) + Lines([AtSym("SP"), Set(DestA, RegM), Set(DestM, RegD), AtSym("SP"), Set(DestM, MPlusOne)])
    {
      PushTailText();
      out := out + ["@SP", "A=M", "M=D"];
      out := out + ["@SP", "M=M+1"];
    }

    /** Keep the target address in `address`. */
    method EmitPopSave()
      modifies this`out
      ensures out == old(out) + Lines([Set(DestD, RegA), AtSym(Scratch(Early)), Set(DestM, RegD)])
    {
      PopSaveEarlyText();
      out := out + ["D=A", "@address", "M=D"];
    }

    /** Decrement SP and read from the stack. */
    method EmitPopLoad()
      modifies this`out
      ensures out == old(out) + Lines(PopTop(Early) + [Set(DestD, RegM)])
    {
      PopLoadEarlyText();
      out := out + ["@SP", "M=M-1", "A=M", "D=M"];
    }

    /** Write D to the address kept in `address`. */
    method EmitPopStore()
      modifies this`out
      ensures out == old(out) + Lines([AtSym(Scratch(Early)), Set(DestA, RegM), Set(DestM, RegD)])
    {
      PopStoreEarlyText();
      out := out + ["@address", "A=M", "M=D"];
    }

    /** `getAddress`: leaves the address of `segment index` in A. */
    method GetAddress(segment: string, index: nat)
      modifies this`out
      ensures out == old(out) + Lines(AddressCode(Early, filename, segment, index))
    {
      if segment == "argument" {
        ArgumentAddressText(Early, filename, index);
        out := out + ["@" + NatStr(index), "D=A", "@ARG", "A=D+M"];
      } else if segment == "local" {
        LocalAddressText(Early, filename, index);
        out := out + ["@" + NatStr(index), "D=A", "@LCL", "A=D+M"];
      } else if segment == "static" {
        StaticEarlyText(filename, index);
        out := out + ["@" + filename + NatStr(index)];
      } else if segment == "this" {
        ThisAddressText(Early, filename, index);
        out := out + ["@" + NatStr(index), "D=A", "@THIS", "A=D+M"];
      } else if segment == "that" {
        ThatAddressText(Early, filename, index);
        out := out + ["@" + NatStr(index), "D=A", "@THAT", "A=D+M"];
      } else if segment == "pointer" {
        PointerText(Early, filename, index);
        out := out + ["@R" + NatStr(3 + index)];
      } else if segment == "temp" {
        TempText(Early, filename, index);
        out := out + ["@R" + NatStr(5 + index)];
      } else {
        OtherAddressText(Early, filename, segment, index);
      }
    }
  }

  // ---------------------------------------------------------------------
  // What main writes
  // ---------------------------------------------------------------------

  /** The command types the dispatch of `main` writes; all others are passed over. */
  predicate Written(t: CommandType) {
    t == Arithmetic || t == Push || t == Pop
  }

  predicate IsStackCmd(cmd: VmCommand) {
    cmd.ArithmeticCmd? || cmd.PushCmd? || cmd.PopCmd?
  }

  /** A push or pop whose index `stoi` cannot read. */
  predicate BadIndex(c: string) {
    (Classify(c) == Push || Classify(c) == Pop) && Arg2(c).None?
  }

  /**
   * What the dispatch of `main` reads from one command line: nothing for
   * a type it passes over; otherwise the command, with `arg1`, and `arg2`
   * for push and pop. None where `stoi` finds no number.
   */
  function DecodeLine(c: string): (r: Option<seq<VmCommand>>)
    ensures r.None? <==> BadIndex(c)
    ensures r.Some? && !Written(Classify(c)) ==> r.value == []
    ensures r.Some? && Written(Classify(c)) ==>
      |r.value| == 1 && IsStackCmd(r.value[0]) && TypeOf(r.value[0]) == Classify(c)
  {
    var t := Classify(c);
    if !Written(t) then Some([])
    else
      match DecodeAs(t, c)
      case None => None
      case Some(cmd) => Some([cmd])
  }

  /** The stack commands of a file's command lines, in order, or None. */
  function DecodeLines(cmds: seq<string>): (r: Option<seq<VmCommand>>)
    ensures r.Some? ==> forall k :: 0 <= k < |r.value| ==> IsStackCmd(r.value[k])
  {
    if cmds == [] then Some([])
    else
      match DecodeLines(cmds[..|cmds| - 1])
      case None => None
      case Some(cs) =>
        match DecodeLine(cmds[|cmds| - 1])
        case None => None
        case Some(d) => Some(cs + d)
  }

  /** The code written so far, and the comparison counter it leaves. */
  datatype Lowered = Lowered(code: seq<Instr>, labelCnt: nat)

  /** `writeArithmetic` or `writePushPop` for one decoded command, with the counter at n. */
  function LowerStack(filename: string, n: nat, cmd: VmCommand): Lowered {
    match cmd
    case ArithmeticCmd(op) => Lowered(ArithmeticCode(Early, op, n), n + if IsComparison(op) then 1 else 0)
    case PushCmd(seg, i) => Lowered(PushCode(Early, filename, seg, i), n)
    case PopCmd(seg, i) => Lowered(PopCode(Early, filename, seg, i), n)
    case _ => Lowered([], n)
  }

  /** The commands written one after the other. */
  function LowerStackAll(filename: string, n: nat, cs: seq<VmCommand>): Lowered {
    if cs == [] then Lowered([], n)
    else
      var r := LowerStackAll(filename, n, cs[..|cs| - 1]);
      var l := LowerStack(filename, r.labelCnt, cs[|cs| - 1]);
      Lowered(r.code + l.code, l.labelCnt)
  }

  /** The output of `main` when its loop visits the command lines cmds. */
  function Emit(infile: string, cmds: seq<string>): Option<VmProgram.Output> {
    var path := OutputPath(infile);
    match DecodeLines(cmds)
    case None => None
    case Some(cs) => Some(VmProgram.Output(path, Lines(LowerStackAll(ModuleName(path), 0, cs).code)))
  }

  /** What `main` writes for the file infile with these lines. */
  function TranslateFile(infile: string, lines: seq<string>): Option<VmProgram.Output> {
    Emit(infile, CleanAll(lines))
  }

  /**
   * The commands `hasMoreCommands` and `advance` visit when the parser's
   * index starts at idx. `idx < commands.size()` compares as unsigned, so a
   * negative start visits nothing.
   */
  function Pending(cmds: seq<string>, idx: int): (r: seq<string>)
    ensures 0 <= idx <= |cmds| ==> r == cmds[idx..]
    ensures (idx < 0 || |cmds| <= idx) ==> r == []
  {
    if 0 <= idx <= |cmds| then cmds[idx..] else []
  }

  /** What `main` writes when the parser's index starts at idx instead of 0. */
  function TranslateFrom(infile: string, lines: seq<string>, idx: int): Option<VmProgram.Output> {
    Emit(infile, Pending(CleanAll(lines), idx))
  }

  // ---------------------------------------------------------------------
  // Decoding: when the translation fails
  // ---------------------------------------------------------------------

  /** One more line: decoding fails when it failed before or this line has a bad index. */
  lemma DecodeLinesStep(cmds: seq<string>)
    requires cmds != []
    ensures DecodeLines(cmds).None? <==> DecodeLines(cmds[..|cmds| - 1]).None? || BadIndex(cmds[|cmds| - 1])
  {
  }

  /** One more line decodes to what it adds. */
  lemma DecodeLinesAdvance(cmds: seq<string>, k: nat, cs: seq<VmCommand>)
    requires k < |cmds| && DecodeLines(cmds[..k]) == Some(cs) && DecodeLine(cmds[k]).Some?
    ensures DecodeLines(cmds[..k + 1]) == Some(cs + DecodeLine(cmds[k]).value)
  {
    assert cmds[..k + 1][..k] == cmds[..k];
  }

  /** Once a prefix of the lines fails, decoding the whole fails. */
  lemma {:induction false} FailsFrom(cmds: seq<string>, k: nat)
    requires k <= |cmds| && DecodeLines(cmds[..k]).None?
    ensures DecodeLines(cmds).None?
    decreases |cmds| - k
  {
    if k < |cmds| {
      assert cmds[..k + 1][..k] == cmds[..k];
      FailsFrom(cmds, k + 1);
    } else {
      assert cmds[..k] == cmds;
    }
  }

  /** The translation fails exactly when some push or pop has an index that is not a number. */
  lemma DecodeLinesFails(cmds: seq<string>)
    ensures DecodeLines(cmds).None? <==> exists k :: 0 <= k < |cmds| && BadIndex(cmds[k])
  {
    if exists k :: 0 <= k < |cmds| && BadIndex(cmds[k]) {
      var k :| 0 <= k < |cmds| && BadIndex(cmds[k]);
      FailsAt(cmds, k);
    }
    if DecodeLines(cmds).None? {
      var k := FailingLine(cmds);
    }
  }

  /** A push or pop with a bad index makes the translation fail. */
  lemma FailsAt(cmds: seq<string>, k: nat)
    requires k < |cmds| && BadIndex(cmds[k])
    ensures DecodeLines(cmds).None?
  {
    var p := cmds[..k + 1];
    assert p[|p| - 1] == cmds[k];
    DecodeLinesStep(p);
    FailsFrom(cmds, k + 1);
  }

  /** A failed translation has a push or pop with a bad index. */
  lemma {:induction false} FailingLine(cmds: seq<string>) returns (k: nat)
    requires DecodeLines(cmds).None?
    ensures k < |cmds| && BadIndex(cmds[k])
  {
    var init := cmds[..|cmds| - 1];
    DecodeLinesStep(cmds);
    if DecodeLines(init).None? {
      k := FailingLine(init);
      assert cmds[k] == init[k];
    } else {
      k := |cmds| - 1;
    }
  }

  // ---------------------------------------------------------------------
  // Lowering: counters and labels
  // ---------------------------------------------------------------------

  /** The code after one more command. */
  lemma LowerStackAllSnoc(filename: string, n: nat, cs: seq<VmCommand>, cmd: VmCommand)
    ensures LowerStackAll(filename, n, cs + [cmd]) ==
      var r := LowerStackAll(filename, n, cs);
      var l := LowerStack(filename, r.labelCnt, cmd);
      Lowered(r.code + l.code, l.labelCnt)
  {
    assert (cs + [cmd])[..|cs|] == cs;
  }

  /** A single command is written as LowerStack writes it. */
  lemma LowerStackAllOne(filename: string, n: nat, cmd: VmCommand)
    ensures LowerStackAll(filename, n, [cmd]) == LowerStack(filename, n, cmd)
  {
    assert [cmd][..0] == [];
    assert [] + LowerStack(filename, n, cmd).code == LowerStack(filename, n, cmd).code;
  }

  /** 1 for a comparison, the only command that numbers labels, and 0 for the others. */
  function Compares(cmd: VmCommand): nat {
    if cmd.ArithmeticCmd? && IsComparison(cmd.op) then 1 else 0
  }

  function CountCompares(cs: seq<VmCommand>): nat {
    if cs == [] then 0 else CountCompares(cs[..|cs| - 1]) + Compares(cs[|cs| - 1])
  }

  /**
   * The labels TRUEm and ENDm for m from n to n + k - 1, in order: the
   * labels k comparisons numbered from n declare.
   */
  function CompareLabels(n: nat, k: nat): seq<string>
    decreases k
  {
    if k == 0 then [] else [TrueLabel(n), EndLabel(n)] + CompareLabels(n + 1, k - 1)
  }

  lemma CompareLabelsOne(m: nat)
    ensures CompareLabels(m, 1) == [TrueLabel(m), EndLabel(m)]
  {
    assert [TrueLabel(m), EndLabel(m)] + [] == [TrueLabel(m), EndLabel(m)];
  }

  lemma {:induction false} CompareLabelsSnoc(n: nat, k: nat)
    ensures CompareLabels(n, k + 1) == CompareLabels(n, k) + CompareLabels(n + k, 1)
    decreases k
  {
    if k > 0 {
      CompareLabelsSnoc(n + 1, k - 1);
    } else {
      assert [] + CompareLabels(n, 1) == CompareLabels(n, 1);
    }
  }

  /** One command moves the counter on by one and declares TRUEn and ENDn if it is a comparison. */
  lemma StackLabels(filename: string, n: nat, cmd: VmCommand)
    ensures LowerStack(filename, n, cmd).labelCnt == n + Compares(cmd)
    ensures Declared(LowerStack(filename, n, cmd).code) == CompareLabels(n, Compares(cmd))
  {
    match cmd
    case ArithmeticCmd(op) => VmProgram.ArithmeticDeclares(Early, op, n);
    case PushCmd(seg, i) => VmProgram.PushDeclares(Early, filename, seg, i);
    case PopCmd(seg, i) => VmProgram.DeclaredNone(PopCode(Early, filename, seg, i));
    case _ =>
    CompareLabelsOne(n);
  }

  /** The counter ends n plus the number of comparisons on. */
  lemma {:induction false} LowerStackAllCount(filename: string, n: nat, cs: seq<VmCommand>)
    ensures LowerStackAll(filename, n, cs).labelCnt == n + CountCompares(cs)
  {
    if cs != [] {
      var init := cs[..|cs| - 1];
      LowerStackAllCount(filename, n, init);
      StackLabels(filename, LowerStackAll(filename, n, init).labelCnt, cs[|cs| - 1]);
    }
  }

  /**
   * The code of a file declares, in order, TRUEm and ENDm for each of its
   * comparisons, numbered on from n.
   */
  lemma {:induction false} LowerStackAllLabels(filename: string, n: nat, cs: seq<VmCommand>)
    ensures Declared(LowerStackAll(filename, n, cs).code) == CompareLabels(n, CountCompares(cs))
  {
    if cs != [] {
      var init, cmd := cs[..|cs| - 1], cs[|cs| - 1];
      LowerStackAllLabels(filename, n, init);
      var r := LowerStackAll(filename, n, init);
      LowerStackAllCount(filename, n, init);
      var l := LowerStack(filename, r.labelCnt, cmd);
      StackLabels(filename, r.labelCnt, cmd);
      DeclaredAppend(r.code, l.code);
      LabelsStep(n, CountCompares(init), r.labelCnt, Compares(cmd), CountCompares(cs),
                 Declared(r.code), Declared(l.code), Declared(LowerStackAll(filename, n, cs).code));
    } else {
      assert LowerStackAll(filename, n, cs).code == [];
    }
  }

  /** The labels of code written in two parts, numbered on from n. */
  lemma LabelsStep(n: nat, k: nat, m: nat, b: nat, t: nat, d0: seq<string>, d1: seq<string>, d: seq<string>)
    requires m == n + k && b <= 1 && t == k + b && d == d0 + d1
    requires d0 == CompareLabels(n, k) && d1 == CompareLabels(m, b)
    ensures d == CompareLabels(n, t)
  {
    if b == 1 {
      CompareLabelsSnoc(n, k);
    } else {
      assert d0 + [] == d0;
    }
  }

  /** TRUEa and ENDb never coincide, and each names its number. */
  lemma LabelForms(a: nat, b: nat)
    ensures TrueLabel(a) != EndLabel(b)
    ensures TrueLabel(a) == TrueLabel(b) <==> a == b
    ensures EndLabel(a) == EndLabel(b) <==> a == b
  {
    assert TrueLabel(a)[0] == 'T' && EndLabel(b)[0] == 'E';
    NatStrInjective(a, b);
    assert TrueLabel(a)[4..] == NatStr(a) && TrueLabel(b)[4..] == NatStr(b);
    assert EndLabel(a)[3..] == NatStr(a) && EndLabel(b)[3..] == NatStr(b);
  }

  /** Labels numbered below n are not among those numbered from n. */
  lemma {:induction false} CompareLabelsAbove(n: nat, k: nat, m: nat)
    requires m < n
    ensures TrueLabel(m) !in CompareLabels(n, k) && EndLabel(m) !in CompareLabels(n, k)
    decreases k
  {
    if k > 0 {
      LabelForms(m, n);
      LabelForms(n, m);
      CompareLabelsAbove(n + 1, k - 1, m);
    }
  }

  predicate Distinct(s: seq<string>) {
    forall i, j :: 0 <= i < j < |s| ==> s[i] != s[j]
  }

  /** No label is declared twice in the code of a file. */
  lemma {:induction false} CompareLabelsDistinct(n: nat, k: nat)
    ensures Distinct(CompareLabels(n, k))
    decreases k
  {
    if k > 0 {
      var rest := CompareLabels(n + 1, k - 1);
      var s := [TrueLabel(n), EndLabel(n)] + rest;
      CompareLabelsDistinct(n + 1, k - 1);
      CompareLabelsAbove(n + 1, k - 1, n);
      LabelForms(n, n);
      forall i, j | 0 <= i < j < |s| ensures s[i] != s[j] {
        if j >= 2 {
          assert s[j] == rest[j - 2];
          if i >= 2 {
            assert s[i] == rest[i - 2];
          } else {
            assert s[j] in rest;
          }
        }
      }
    }
  }

  /** Every label the code of a file declares is declared once. */
  lemma FileLabelsDistinct(filename: string, cs: seq<VmCommand>)
    ensures Distinct(Declared(LowerStackAll(filename, 0, cs).code))
  {
    LowerStackAllLabels(filename, 0, cs);
    CompareLabelsDistinct(0, CountCompares(cs));
  }

  /** For a ".vm" input, the module name keeps the '.' of the output's ".asm". */
  lemma ModuleNameOfInput(infile: string)
    requires EndsWith(infile, ".vm")
    ensures ModuleName(OutputPath(infile)) == ModuleName(infile) + "."
  {
    var p := infile[..|infile| - 3];
    assert infile == p + ".vm";
    assert OutputPath(infile) == p + ".asm";
    BaseNameAppend(p, ".vm");
    BaseNameAppend(p, ".asm");
    var b := BaseName(p);
    assert (b + ".vm")[..|b|] == b;
    assert (b + ".asm")[..|b| + 1] == b + ".";
  }

  /**
   * So the static symbols of a ".vm" file are those the full translator
   * gives it, and its push code is the full translator's push code.
   */
  lemma StaticMatchesFull(infile: string, seg: string, i: nat)
    requires EndsWith(infile, ".vm")
    ensures StaticSymbol(Early, ModuleName(OutputPath(infile)), i) == StaticSymbol(Full, ModuleName(infile), i)
    ensures PushCode(Early, ModuleName(OutputPath(infile)), seg, i) == PushCode(Full, ModuleName(infile), seg, i)
  {
    ModuleNameOfInput(infile);
    SameStaticPush(ModuleName(OutputPath(infile)), ModuleName(infile), seg, i);
  }

  /** Push code differs between the two translators only in its static symbol. */
  lemma SameStaticPush(early: string, full: string, seg: string, i: nat)
    requires StaticSymbol(Early, early, i) == StaticSymbol(Full, full, i)
    ensures AddressCode(Early, early, seg, i) == AddressCode(Full, full, seg, i)
    ensures PushCode(Early, early, seg, i) == PushCode(Full, full, seg, i)
  {
  }

  // ---------------------------------------------------------------------
  // The driver
  // ---------------------------------------------------------------------

  /** The dispatch of `main` for one command; false where `stoi` fails, with nothing written. */
  method WriteCommand(w: CodeWriter, c: string) returns (ok: bool)
    modifies w`out, w`labelCnt
    ensures ok <==> DecodeLine(c).Some?
    ensures ok && DecodeLine(c).value != [] ==>
      var l := LowerStack(w.filename, old(w.labelCnt), DecodeLine(c).value[0]);
      w.out == old(w.out) + Lines(l.code) && w.labelCnt == l.labelCnt
    ensures !(ok && DecodeLine(c).value != []) ==> w.out == old(w.out) && w.labelCnt == old(w.labelCnt)
  {
    var t := Classify(c);
    if t == Arithmetic {
      w.WriteArithmetic(Arg1(c));
    } else if t == Push || t == Pop {
      var n := Arg2(c);
      if n.None? {
        return false;
      }
      w.WritePushPop(t, Arg1(c), n.value);
    }
    ok := true;
  }

  /** One iteration of the loop of `main`: the k-th command line c written after those before it. */
  method WriteLine(w: CodeWriter, c: string, ghost cmds: seq<string>, ghost k: nat, ghost n0: nat, ghost out0: seq<string>,
                   ghost cs: seq<VmCommand>, ghost code: seq<Instr>)
    returns (ok: bool, ghost cs': seq<VmCommand>, ghost code': seq<Instr>)
    requires k < |cmds| && c == cmds[k] && DecodeLines(cmds[..k]) == Some(cs)
    requires LowerStackAll(w.filename, n0, cs) == Lowered(code, w.labelCnt) && w.out == out0 + Lines(code)
    modifies w`out, w`labelCnt
    ensures !ok ==> DecodeLines(cmds).None?
    ensures ok ==> DecodeLines(cmds[..k + 1]) == Some(cs')
    ensures ok ==> LowerStackAll(w.filename, n0, cs') == Lowered(code', w.labelCnt) && w.out == out0 + Lines(code')
  {
    ghost var n := w.labelCnt;
    ok := WriteCommand(w, c);
    cs', code' := cs, code;
    if !ok {
      FailsAt(cmds, k);
      return;
    }
    ghost var d := DecodeLine(c).value;
    DecodeLinesAdvance(cmds, k, cs);
    if d == [] {
      assert cs + d == cs;
      cs' := cs;
    } else {
      ghost var l := LowerStack(w.filename, n, d[0]);
      assert d == [d[0]];
      LowerStackAllSnoc(w.filename, n0, cs, d[0]);
      LinesJoin(out0, code, l.code);
      code' := code + l.code;
      cs' := cs + [d[0]];
    }
  }

  /** The `while` loop of `main`, from wherever the parser's index is. */
  method TranslateCommands(w: CodeWriter, p: Parser) returns (ok: bool)
    requires p.idx <= |p.commands|
    modifies w`out, w`labelCnt, p
    ensures ok <==> DecodeLines(old(p.commands[p.idx..])).Some?
    ensures ok ==>
      w.out == old(w.out) + Lines(LowerStackAll(w.filename, old(w.labelCnt), DecodeLines(old(p.commands[p.idx..])).value).code)
  {
    ghost var cmds := p.commands[p.idx..];
    ghost var start := p.idx;
    ghost var code: seq<Instr> := [];
    ghost var cs: seq<VmCommand> := [];
    assert cmds[..0] == [];
    while p.HasMoreCommands()
      invariant p.commands == old(p.commands) && start <= p.idx <= |p.commands|
      invariant cmds == p.commands[start..]
      invariant DecodeLines(cmds[..p.idx - start]) == Some(cs)
      invariant LowerStackAll(w.filename, old(w.labelCnt), cs) == Lowered(code, w.labelCnt)
      invariant w.out == old(w.out) + Lines(code)
      decreases |p.commands| - p.idx
    {
      ghost var k := p.idx - start;
      p.Advance();
      var c := p.currentCommand;
      ok, cs, code := WriteLine(w, c, cmds, k, old(w.labelCnt), old(w.out), cs, code);
      if !ok {
        return;
      }
    }
    assert cmds[..p.idx - start] == cmds;
    ok := true;
  }

  /**
   * `main` with the parser's index starting at idx0: the Parser, a writer
   * opened on the output path, and the loop. The source leaves the index
   * uninitialised; Translate starts it at 0.
   */
  method TranslateFromIndex(infile: string, lines: seq<string>, idx0: int) returns (r: Option<VmProgram.Output>)
    ensures r == TranslateFrom(infile, lines, idx0)
  {
    var outfilename := OutputPath(infile);
    var parser := new Parser(lines);
    parser.idx := if 0 <= idx0 <= |parser.commands| then idx0 else |parser.commands|;
    assert parser.commands[parser.idx..] == Pending(CleanAll(lines), idx0);
    var writer := new CodeWriter();
    writer.SetFileName(outfilename);
    ghost var cmds := parser.commands[parser.idx..];
    var ok := TranslateCommands(writer, parser);
    if ok {
      r := Some(VmProgram.Output(writer.outPath, writer.out));
    } else {
      r := None;
    }
    EmitOf(infile, cmds, r);
  }

  /** What the driver returns is Emit of the commands its loop visited. */
  lemma EmitOf(infile: string, cmds: seq<string>, r: Option<VmProgram.Output>)
    requires DecodeLines(cmds).None? ==> r.None?
    requires DecodeLines(cmds).Some? ==> r == Some(VmProgram.Output(OutputPath(infile),
      [] + Lines(LowerStackAll(ModuleName(OutputPath(infile)), 0, DecodeLines(cmds).value).code)))
    ensures r == Emit(infile, cmds)
  {
    if DecodeLines(cmds).Some? {
      var code := LowerStackAll(ModuleName(OutputPath(infile)), 0, DecodeLines(cmds).value).code;
      assert [] + Lines(code) == Lines(code);
    }
  }

  /** `main` with the parser's index initialised to 0: every command of the file is translated. */
  method Translate(infile: string, lines: seq<string>) returns (r: Option<VmProgram.Output>)
    ensures r == TranslateFile(infile, lines)
  {
    r := TranslateFromIndex(infile, lines, 0);
    FromStart(infile, lines);
  }

  lemma FromStart(infile: string, lines: seq<string>)
    ensures TranslateFrom(infile, lines, 0) == TranslateFile(infile, lines)
  {
    assert Pending(CleanAll(lines), 0) == CleanAll(lines);
  }

  /**
   * With its index left uninitialised, the parser of `main` can start
   * past the first command: for the one-line file "neg" and a start of 1,
   * nothing is written, while the file's own code negates the top of the
   * stack.
   */
  lemma UninitialisedIndexSkips(infile: string)
    ensures TranslateFrom(infile, ["neg"], 1) == Some(VmProgram.Output(OutputPath(infile), []))
    ensures TranslateFile(infile, ["neg"]) == Some(VmProgram.Output(OutputPath(infile), ["@SP", "A=M-1", "M=-M"]))
  {
    NegLine();
    CleanAllSingle("neg");
    assert CleanAll(["neg"]) == ["neg"];
    assert Pending(["neg"], 1) == [];
    TranslateNeg(infile);
  }

  lemma TranslateNeg(infile: string)
    requires DecodeLine("neg") == Some([ArithmeticCmd("neg")])
    ensures Emit(infile, ["neg"]) == Some(VmProgram.Output(OutputPath(infile), ["@SP", "A=M-1", "M=-M"]))
  {
    EmitOne(infile, "neg", ArithmeticCmd("neg"));
    NegText(Early, 0);
  }

  /** A file of one stack command is that command's code. */
  lemma EmitOne(infile: string, c: string, cmd: VmCommand)
    requires DecodeLine(c) == Some([cmd])
    ensures Emit(infile, [c]) ==
      Some(VmProgram.Output(OutputPath(infile), Lines(LowerStack(ModuleName(OutputPath(infile)), 0, cmd).code)))
  {
    DecodeLinesOne(c);
    assert [] + [cmd] == [cmd];
    LowerStackAllOne(ModuleName(OutputPath(infile)), 0, cmd);
  }

  lemma DecodeLinesOne(c: string)
    ensures DecodeLines([c]) == if DecodeLine(c).None? then None else Some([] + DecodeLine(c).value)
  {
    assert [c][..0] == [];
  }

  /** The line "neg" is kept as it is and read as the arithmetic command neg. */
  lemma NegLine()
    ensures CleanLine("neg") == Some("neg")
    ensures DecodeLine("neg") == Some([ArithmeticCmd("neg")])
  {
    var c := "neg";
    assert IsCleanCommand(c) by {
      assert forall i :: 0 <= i < |c| ==> !CommentAt(c, i);
      assert forall i :: 0 <= i < |c| - 1 ==> !IsSpace(c[i]);
    }
    CleanLineOfClean(c);
    NotPrefixAt("push", c, 0);
    NotPrefixAt("pop", c, 0);
    NotPrefixAt("label", c, 0);
    NotPrefixAt("goto", c, 0);
    NotPrefixAt("if-goto", c, 0);
    NotPrefixAt("function", c, 0);
    NotPrefixAt("return", c, 0);
    NotPrefixAt("call", c, 0);
    assert Classify(c) == Arithmetic;
  }
}
