/**
 * What the full translator produces for a whole directory
 * (vm_translator.cpp:389-425): the bootstrap, then, for every ".vm" file
 * in turn, the code of each of its commands, lowered with the four
 * pieces of writer state carried from command to command and from file to
 * file. The driver method `Translate` does this with a CodeWriter and one
 * Parser per file and is proved to write exactly that text.
 */
module VmProgram {
  import opened Text
  import opened Hack
  import opened VmCode
  import opened VmParser
  import opened VmTranslator

  // ---------------------------------------------------------------------
  // Lowering commands with the writer's state
  // ---------------------------------------------------------------------

  /** The fields of a CodeWriter that the code of a command depends on. */
  datatype WriterState = WriterState(filename: string, functionName: string, labelCnt: nat, callCnt: nat)

  /** The code written so far, and the state it leaves. */
  datatype Lowered = Lowered(code: seq<Instr>, next: WriterState)

  /** The write method the dispatch calls for one command, as a function of the state. */
  function Lower(st: WriterState, cmd: VmCommand): Lowered {
    match cmd
    case ArithmeticCmd(op) =>
      Lowered(ArithmeticCode(Full, op, st.labelCnt),
              st.(labelCnt := st.labelCnt + if IsComparison(op) then 1 else 0))
    case PushCmd(seg, i) => Lowered(PushCode(Full, st.filename, seg, i), st)
    case PopCmd(seg, i) => Lowered(PopCode(Full, st.filename, seg, i), st)
    case LabelCmd(l) => Lowered(LabelCode(st.functionName, l), st)
    case GotoCmd(l) => Lowered(GotoCode(st.functionName, l), st)
    case IfGotoCmd(l) => Lowered(IfCode(st.functionName, l), st)
    case FunctionCmd(f, n) => Lowered(FunctionCode(f, n), st.(functionName := f))
    case CallCmd(f, n) => Lowered(CallCode(f, n, st.callCnt), st.(callCnt := st.callCnt + 1))
    case ReturnCmd => Lowered(ReturnCode(), st)
  }

  /** The commands of a sequence written one after the other. */
  function LowerAll(st: WriterState, cmds: seq<VmCommand>): Lowered {
    if cmds == [] then Lowered([], st)
    else
      var r := LowerAll(st, cmds[..|cmds| - 1]);
      var l := Lower(r.next, cmds[|cmds| - 1]);
      Lowered(r.code + l.code, l.next)
  }

  /** Whether a command is a comparison, the only commands that number labels TRUEn and ENDn. */
  predicate IsCompareCmd(cmd: VmCommand) {
    cmd.ArithmeticCmd? && IsComparison(cmd.op)
  }

  predicate IsCallCmd(cmd: VmCommand) {
    cmd.CallCmd?
  }

  /** How many of the commands satisfy p. */
  function Count(cmds: seq<VmCommand>, p: VmCommand -> bool): (n: nat)
    ensures n <= |cmds|
  {
    if cmds == [] then 0
    else Count(cmds[..|cmds| - 1], p) + if p(cmds[|cmds| - 1]) then 1 else 0
  }

  /**
   * One command changes the state only as its write method does: a
   * comparison moves labelCnt on by one, a call moves callCnt on by one, a
   * function declaration sets the scope, and nothing changes the module name.
   */
  lemma LowerState(st: WriterState, cmd: VmCommand)
    ensures Lower(st, cmd).next.filename == st.filename
    ensures Lower(st, cmd).next.labelCnt == st.labelCnt + if IsCompareCmd(cmd) then 1 else 0
    ensures Lower(st, cmd).next.callCnt == st.callCnt + if cmd.CallCmd? then 1 else 0
    ensures Lower(st, cmd).next.functionName == if cmd.FunctionCmd? then cmd.name else st.functionName
  {
  }

  /**
   * After a sequence of commands the counters have moved on by the number
   * of comparisons and the number of calls, and the module name is the same.
   */
  lemma {:induction false} LowerAllCounters(st: WriterState, cmds: seq<VmCommand>)
    ensures LowerAll(st, cmds).next.filename == st.filename
    ensures LowerAll(st, cmds).next.labelCnt == st.labelCnt + Count(cmds, IsCompareCmd)
    ensures LowerAll(st, cmds).next.callCnt == st.callCnt + Count(cmds, IsCallCmd)
  {
    if cmds != [] {
      var init := cmds[..|cmds| - 1];
      LowerAllCounters(st, init);
      LowerState(LowerAll(st, init).next, cmds[|cmds| - 1]);
    }
  }

  /** The state the writer is in when it reaches command i. */
  function Before(st: WriterState, cmds: seq<VmCommand>, i: nat): WriterState
    requires i <= |cmds|
  {
    LowerAll(st, cmds[..i]).next
  }

  /** The code of a sequence is the code of its first i commands followed by that of command i onwards. */
  lemma {:induction false} LowerAllStep(st: WriterState, cmds: seq<VmCommand>, i: nat)
    requires i < |cmds|
    ensures Before(st, cmds, i + 1) == Lower(Before(st, cmds, i), cmds[i]).next
    ensures LowerAll(st, cmds[..i + 1]).code ==
      LowerAll(st, cmds[..i]).code + Lower(Before(st, cmds, i), cmds[i]).code
  {
    assert cmds[..i + 1][..i] == cmds[..i];
  }

  /** Counters never move back from one command to a later one. */
  lemma {:induction false} BeforeMonotone(st: WriterState, cmds: seq<VmCommand>, i: nat, j: nat)
    requires i <= j <= |cmds|
    ensures Before(st, cmds, i).labelCnt <= Before(st, cmds, j).labelCnt
    ensures Before(st, cmds, i).callCnt <= Before(st, cmds, j).callCnt
    decreases j - i
  {
    if i < j {
      LowerAllStep(st, cmds, i);
      LowerState(Before(st, cmds, i), cmds[i]);
      BeforeMonotone(st, cmds, i + 1, j);
    }
  }

  /**
   * Comparison labels never repeat: two different comparisons of a
   * sequence declare different TRUEn and ENDn labels.
   */
  lemma {:induction false} CompareLabelsDistinct(st: WriterState, cmds: seq<VmCommand>, i: nat, j: nat)
    requires i < j < |cmds| && IsCompareCmd(cmds[i]) && IsCompareCmd(cmds[j])
    ensures Before(st, cmds, i).labelCnt < Before(st, cmds, j).labelCnt
    ensures var m, n := Before(st, cmds, i).labelCnt, Before(st, cmds, j).labelCnt;
      TrueLabel(m) != TrueLabel(n) && EndLabel(m) != EndLabel(n)
  {
    var m, n := Before(st, cmds, i).labelCnt, Before(st, cmds, j).labelCnt;
    LowerAllStep(st, cmds, i);
    LowerState(Before(st, cmds, i), cmds[i]);
    BeforeMonotone(st, cmds, i + 1, j);
    NatStrInjective(m, n);
    assert TrueLabel(m)[4..] == NatStr(m) && TrueLabel(n)[4..] == NatStr(n);
    assert EndLabel(m)[3..] == NatStr(m) && EndLabel(n)[3..] == NatStr(n);
  }

  /** Return addresses never repeat: two different calls of a sequence declare different RETURNk. */
  lemma {:induction false} ReturnLabelsDistinct(st: WriterState, cmds: seq<VmCommand>, i: nat, j: nat)
    requires i < j < |cmds| && cmds[i].CallCmd? && cmds[j].CallCmd?
    ensures Before(st, cmds, i).callCnt < Before(st, cmds, j).callCnt
    ensures ReturnLabel(Before(st, cmds, i).callCnt) != ReturnLabel(Before(st, cmds, j).callCnt)
  {
    var m, n := Before(st, cmds, i).callCnt, Before(st, cmds, j).callCnt;
    LowerAllStep(st, cmds, i);
    LowerState(Before(st, cmds, i), cmds[i]);
    BeforeMonotone(st, cmds, i + 1, j);
    NatStrInjective(m, n);
    assert ReturnLabel(m)[6..] == NatStr(m) && ReturnLabel(n)[6..] == NatStr(n);
  }

  /**
   * The labels the code of a command declares: TRUEn and ENDn for a
   * comparison, RETURNk for a call, `fn$label` for a label, the function
   * and its two loop labels for a function declaration, and none otherwise.
   */
  function Labels(st: WriterState, cmd: VmCommand): seq<string> {
    match cmd
    case ArithmeticCmd(op) => if IsComparison(op) then [TrueLabel(st.labelCnt), EndLabel(st.labelCnt)] else []
    case LabelCmd(l) => [Scoped(st.functionName, l)]
    case FunctionCmd(f, _) => [f, LoopLabel(f), LoopEndLabel(f)]
    case CallCmd(_, _) => [ReturnLabel(st.callCnt)]
    case _ => []
  }

  lemma {:induction false} LowerDeclares(st: WriterState, cmd: VmCommand)
    ensures Declared(Lower(st, cmd).code) == Labels(st, cmd)
  {
    match cmd
    case ArithmeticCmd(op) => ArithmeticDeclares(Full, op, st.labelCnt);
    case PushCmd(seg, i) => PushDeclares(Full, st.filename, seg, i);
    case PopCmd(seg, i) => DeclaredNone(PopCode(Full, st.filename, seg, i));
    case LabelCmd(l) => DeclaredOne(Scoped(st.functionName, l));
    case GotoCmd(l) => DeclaredNone(GotoCode(st.functionName, l));
    case IfGotoCmd(l) => DeclaredNone(IfCode(st.functionName, l));
    case FunctionCmd(f, n) => FunctionDeclares(f, n);
    case CallCmd(f, n) => CallDeclares(f, n, st.callCnt);
    case ReturnCmd => ReturnDeclares(RestoreOrder);
  }

  lemma {:induction false} PushDeclares(dialect: Dialect, filename: string, seg: string, i: nat)
    ensures Declared(PushCode(dialect, filename, seg, i)) == []
  {
    var q := [AtSym("SP"), Set(DestA, RegM), Set(DestM, RegD), AtSym("SP"), Set(DestM, MPlusOne)];
    var h := if seg == "constant" then [AtNum(i), Set(DestD, RegA)]
             else AddressCode(dialect, filename, seg, i) + [Set(DestD, RegM)];
    assert PushCode(dialect, filename, seg, i) == h + q;
    DeclaredAppend(h, q);
    DeclaredNone(h);
    DeclaredNone(q);
  }

  /** Code without label declarations declares nothing. */
  lemma {:induction false} DeclaredNone(p: seq<Instr>)
    requires forall i :: 0 <= i < |p| ==> !p[i].Declare?
    ensures Declared(p) == []
  {
    if p != [] {
      DeclaredNone(p[1..]);
    }
  }

  lemma DeclaredOne(name: string)
    ensures Declared([Declare(name)]) == [name]
  {
    assert [Declare(name)][1..] == [];
  }

  lemma {:induction false} ArithmeticDeclares(dialect: Dialect, op: string, n: nat)
    ensures Declared(ArithmeticCode(dialect, op, n)) ==
      if IsComparison(op) then [TrueLabel(n), EndLabel(n)] else []
  {
    if IsUnary(op) {
      DeclaredNone(ArithmeticCode(dialect, op, n));
    } else if IsComparison(op) {
      ComparisonDeclares(dialect, op, n);
    } else {
      OperandsDeclares(dialect);
      DeclaredAppend(OperandsCode(dialect), [Set(DestM, BinaryComp(op))]);
      DeclaredNone([Set(DestM, BinaryComp(op))]);
    }
  }

  lemma OperandsDeclares(dialect: Dialect)
    ensures Declared(OperandsCode(dialect)) == []
  {
    DeclaredNone(OperandsCode(dialect));
  }

  lemma {:induction false} ComparisonDeclares(dialect: Dialect, op: string, n: nat)
    requires IsComparison(op)
    ensures Declared(ArithmeticCode(dialect, op, n)) == [TrueLabel(n), EndLabel(n)]
  {
    var o, t, f := OperandsCode(dialect), CompareTest(op, n), FalseBranch(n);
    DeclaredAppend(o, CompareCode(op, n));
    DeclaredAppend(t + f, TrueBranch(n));
    DeclaredAppend(t, f);
    OperandsDeclares(dialect);
    DeclaredNone(t);
    DeclaredNone(f);
    TrueBranchDeclares(n);
  }

  lemma {:induction false} TrueBranchDeclares(n: nat)
    ensures Declared(TrueBranch(n)) == [TrueLabel(n), EndLabel(n)]
  {
    var p := TrueBranch(n);
    var mid := p[1..4];
    assert p == [p[0]] + mid + [p[4]];
    DeclaredAppend([p[0]] + mid, [p[4]]);
    DeclaredAppend([p[0]], mid);
    DeclaredOne(TrueLabel(n));
    DeclaredOne(EndLabel(n));
    DeclaredNone(mid);
  }

  lemma {:induction false} SaveAllDeclares(regs: seq<string>)
    ensures Declared(SaveAll(regs)) == []
  {
    if regs != [] {
      DeclaredAppend(SaveCode(regs[0]), SaveAll(regs[1..]));
      DeclaredNone(SaveCode(regs[0]));
      SaveAllDeclares(regs[1..]);
    }
  }

  lemma {:induction false} CallDeclares(f: string, n: nat, k: nat)
    ensures Declared(CallCode(f, n, k)) == [ReturnLabel(k)]
  {
    var a := ArgCode(n) + LclCode() + [AtSym(f), VmCode.Goto(Zero, JMP)];
    DeclaredAppend(CallHead(k), SaveAll(FrameRegisters));
    DeclaredAppend(CallHead(k) + SaveAll(FrameRegisters), CallTail(f, n, k));
    DeclaredAppend(a, [Declare(ReturnLabel(k))]);
    DeclaredNone(CallHead(k));
    SaveAllDeclares(FrameRegisters);
    DeclaredNone(a);
    DeclaredOne(ReturnLabel(k));
  }

  lemma {:induction false} ReturnDeclares(regs: seq<string>)
    ensures Declared(ReturnHead() + RestoreAll(regs) + ReturnJump()) == []
  {
    var h, r, j := ReturnHead(), RestoreAll(regs), ReturnJump();
    RestoreAllNoDeclares(regs);
    assert forall i :: 0 <= i < |h| ==> !h[i].Declare?;
    assert forall i :: 0 <= i < |j| ==> !j[i].Declare?;
    DeclaredNone(h + r + j);
  }

  lemma {:induction false} RestoreAllNoDeclares(regs: seq<string>)
    ensures forall i :: 0 <= i < |RestoreAll(regs)| ==> !RestoreAll(regs)[i].Declare?
  {
    if regs != [] {
      RestoreAllNoDeclares(regs[1..]);
    }
  }

  lemma {:induction false} FunctionDeclares(f: string, n: nat)
    ensures Declared(FunctionCode(f, n)) == [f, LoopLabel(f), LoopEndLabel(f)]
  {
    var e, t, b := FunctionEntry(f), LoopTest(f, n), LoopBody(f);
    DeclaredAppend(e + t + b, [Declare(LoopEndLabel(f))]);
    DeclaredAppend(e + t, b);
    DeclaredAppend(e, t);
    assert e == [Declare(f)] + e[1..];
    DeclaredAppend([Declare(f)], e[1..]);
    DeclaredNone(e[1..]);
    assert t == [Declare(LoopLabel(f))] + t[1..];
    DeclaredAppend([Declare(LoopLabel(f))], t[1..]);
    DeclaredNone(t[1..]);
    DeclaredNone(b);
    DeclaredOne(f);
    DeclaredOne(LoopLabel(f));
    DeclaredOne(LoopEndLabel(f));
  }

  // ---------------------------------------------------------------------
  // Decoding and files
  // ---------------------------------------------------------------------

  /** The commands of a file's stored lines, or None when `stoi` cannot read one of them. */
  function DecodeAll(lines: seq<string>): (r: Option<seq<VmCommand>>)
    ensures r.Some? <==> forall k :: 0 <= k < |lines| ==> Decode(lines[k]).Some?
    ensures r.Some? ==> |r.value| == |lines|
    ensures r.Some? ==> forall k :: 0 <= k < |lines| ==> Decode(lines[k]) == Some(r.value[k])
  {
    if lines == [] then Some([])
    else
      var init := lines[..|lines| - 1];
      assert forall k :: 0 <= k < |init| ==> init[k] == lines[k];
      var r := DecodeAll(init);
      if r.None? then None
      else
        var d := Decode(lines[|lines| - 1]);
        if d.None? then None
        else
          DecodedSnoc(Decode, lines, r.value, d.value);
          Some(r.value + [d.value])
  }

  /** Extending a pointwise decoding by its last element, for any decoder f. */
  lemma DecodedSnoc<T, U>(f: T -> Option<U>, lines: seq<T>, cs: seq<U>, c: U)
    requires lines != [] && |cs| == |lines| - 1
    requires forall k :: 0 <= k < |cs| ==> f(lines[k]) == Some(cs[k])
    requires f(lines[|lines| - 1]) == Some(c)
    ensures forall k :: 0 <= k < |lines| ==> f(lines[k]) == Some((cs + [c])[k])
  {
  }

  /** A file of the directory: its path and its lines. */
  datatype SourceFile = SourceFile(path: string, lines: seq<string>)

  /** The commands the dispatch reads from a file. */
  function FileCommands(f: SourceFile): Option<seq<VmCommand>> {
    DecodeAll(CleanAll(f.lines))
  }

  /** The loop of `main` over the files: files not ending in ".vm" are skipped. */
  function LowerFiles(st: WriterState, files: seq<SourceFile>): Option<Lowered> {
    if files == [] then Some(Lowered([], st))
    else
      match LowerFiles(st, files[..|files| - 1])
      case None => None
      case Some(r) =>
        var f := files[|files| - 1];
        if !EndsWith(f.path, ".vm") then Some(r)
        else
          match FileCommands(f)
          case None => None
          case Some(cs) =>
            var l := LowerAll(r.next.(filename := ModuleName(f.path)), cs);
            Some(Lowered(r.code + l.code, l.next))
  }

  /** The state after `writeInit`: one return address used. */
  const InitState := WriterState("", "", 0, 1)

  /** The output file of a translation: its path and its lines. */
  datatype Output = Output(path: string, lines: seq<string>)

  /** What `main` writes for a directory whose files are given in iteration order. */
  function TranslateProgram(dir: string, files: seq<SourceFile>): Option<Output> {
    match LowerFiles(InitState, files)
    case None => None
    case Some(r) => Some(Output(OutputPath(dir), Lines(InitCode(0)) + Lines(r.code)))
  }

  // ---------------------------------------------------------------------
  // Properties of the whole translation
  // ---------------------------------------------------------------------

  predicate IsVmFile(f: SourceFile) {
    EndsWith(f.path, ".vm")
  }

  /** One more file fails the translation when it failed before or the file is a ".vm" file that cannot be read. */
  lemma LowerFilesLast(st: WriterState, files: seq<SourceFile>)
    requires files != []
    ensures var n := |files| - 1;
      LowerFiles(st, files).None? <==>
      LowerFiles(st, files[..n]).None? || (IsVmFile(files[n]) && FileCommands(files[n]).None?)
  {
  }

  /** A translation fails exactly when `stoi` fails on some command of some ".vm" file. */
  lemma LowerFilesFails(st: WriterState, files: seq<SourceFile>)
    ensures LowerFiles(st, files).None? <==>
      exists k :: 0 <= k < |files| && IsVmFile(files[k]) && FileCommands(files[k]).None?
  {
    forall j | 0 < j <= |files|
      ensures LowerFiles(st, files[..j]).None? <==>
        LowerFiles(st, files[..j - 1]).None? || (IsVmFile(files[j - 1]) && FileCommands(files[j - 1]).None?)
    {
      LowerFilesLast(st, files[..j]);
      assert files[..j][..j - 1] == files[..j - 1];
      assert files[..j][j - 1] == files[j - 1];
    }
    FirstFailure(files, fs => LowerFiles(st, fs).None?, f => IsVmFile(f) && FileCommands(f).None?);
    assert files[..|files|] == files;
  }

  /**
   * A property of prefixes that is false for the empty prefix and becomes
   * true exactly at a bad element, and then stays true, holds of the whole
   * sequence exactly when some element is bad.
   */
  lemma {:induction false} FirstFailure<T>(xs: seq<T>, fails: seq<T> -> bool, bad: T -> bool)
    requires !fails([])
    requires forall j :: 0 < j <= |xs| ==> (fails(xs[..j]) <==> fails(xs[..j - 1]) || bad(xs[j - 1]))
    ensures fails(xs[..|xs|]) <==> exists k :: 0 <= k < |xs| && bad(xs[k])
  {
    if xs != [] {
      var n := |xs| - 1;
      var init := xs[..n];
      forall j | 0 < j <= |init|
        ensures fails(init[..j]) <==> fails(init[..j - 1]) || bad(init[j - 1])
      {
        assert init[..j] == xs[..j] && init[..j - 1] == xs[..j - 1] && init[j - 1] == xs[j - 1];
      }
      FirstFailure(init, fails, bad);
      assert init[..|init|] == init;
      assert forall k :: 0 <= k < n ==> init[k] == xs[k];
      if fails(xs[..|xs|]) && !fails(init) {
        assert bad(xs[n]);
      }
    }
  }

  /** Once a ".vm" file cannot be read, the translation stays failed. */
  lemma FailsFrom(st: WriterState, files: seq<SourceFile>, k: nat)
    requires k < |files| && IsVmFile(files[k]) && FileCommands(files[k]).None?
    ensures LowerFiles(st, files).None?
  {
    LowerFilesFails(st, files);
  }

  /**
   * The whole translation fails exactly when some ".vm" file has a
   * command `stoi` cannot read (a line of that file that Decode rejects:
   * see DecodeAll).
   */
  lemma TranslateFails(dir: string, files: seq<SourceFile>)
    ensures TranslateProgram(dir, files).None? <==>
      exists k :: 0 <= k < |files| && IsVmFile(files[k]) && FileCommands(files[k]).None?
  {
    LowerFilesFails(InitState, files);
  }

  /** A directory without ".vm" files gives just the bootstrap. */
  lemma {:induction false} LowerFilesNoVm(st: WriterState, files: seq<SourceFile>)
    requires forall k :: 0 <= k < |files| ==> !IsVmFile(files[k])
    ensures LowerFiles(st, files) == Some(Lowered([], st))
  {
    if files != [] {
      var init := files[..|files| - 1];
      assert forall k :: 0 <= k < |init| ==> init[k] == files[k];
      LowerFilesNoVm(st, init);
    }
  }

  lemma TranslateNoVm(dir: string, files: seq<SourceFile>)
    requires forall k :: 0 <= k < |files| ==> !IsVmFile(files[k])
    ensures TranslateProgram(dir, files) == Some(Output(OutputPath(dir), Lines(InitCode(0))))
  {
    LowerFilesNoVm(InitState, files);
    ProgramOfNothing(dir, files, 0);
  }

  lemma ProgramOfNothing(dir: string, files: seq<SourceFile>, k0: nat)
    requires k0 == 0 && LowerFiles(InitState, files) == Some(Lowered([], InitState))
    ensures TranslateProgram(dir, files) == Some(Output(OutputPath(dir), Lines(InitCode(k0))))
  {
    var boot := Lines(InitCode(k0));
    assert Lines([]) == [];
    assert boot + [] == boot;
  }

  /** Every output starts with the bootstrap: SP := 256 and `call Sys.init 0` with RETURN0. */
  lemma TranslateStartsWithInit(dir: string, files: seq<SourceFile>)
    requires TranslateProgram(dir, files).Some?
    ensures Lines(InitCode(0)) <= TranslateProgram(dir, files).value.lines
    ensures TranslateProgram(dir, files).value.path == OutputPath(dir)
  {
    var o := TranslateProgram(dir, files).value.lines;
    assert o[..|Lines(InitCode(0))|] == Lines(InitCode(0));
  }

  /** How many commands of the readable ".vm" files satisfy p. */
  function FilesCount(files: seq<SourceFile>, p: VmCommand -> bool): nat {
    if files == [] then 0
    else
      var f := files[|files| - 1];
      FilesCount(files[..|files| - 1], p) +
        if IsVmFile(f) && FileCommands(f).Some? then Count(FileCommands(f).value, p) else 0
  }

  /**
   * The counters are never reset between files: over the whole directory
   * they move on by exactly the number of comparisons and of calls in all
   * its ".vm" files.
   */
  lemma {:induction false} LowerFilesCounters(st: WriterState, files: seq<SourceFile>)
    requires LowerFiles(st, files).Some?
    ensures LowerFiles(st, files).value.next.labelCnt == st.labelCnt + FilesCount(files, IsCompareCmd)
    ensures LowerFiles(st, files).value.next.callCnt == st.callCnt + FilesCount(files, IsCallCmd)
  {
    if files != [] {
      var init := files[..|files| - 1];
      LowerFilesCounters(st, init);
      var r := LowerFiles(st, init).value;
      var f := files[|files| - 1];
      if IsVmFile(f) {
        var cs := FileCommands(f).value;
        LowerAllCounters(r.next.(filename := ModuleName(f.path)), cs);
      }
    }
  }

  // ---------------------------------------------------------------------
  // Numbered labels across the whole output
  // ---------------------------------------------------------------------

  /** A label the writer numbers: a comparison's TRUEn or ENDn, or a call's RETURNk. */
  datatype Numbered = TrueAt(n: nat) | EndAt(n: nat) | ReturnAt(n: nat)

  function Name(t: Numbered): string {
    match t
    case TrueAt(n) => TrueLabel(n)
    case EndAt(n) => EndLabel(n)
    case ReturnAt(n) => ReturnLabel(n)
  }

  function Names(ts: seq<Numbered>): (names: seq<string>)
    ensures |names| == |ts|
  {
    if ts == [] then [] else [Name(ts[0])] + Names(ts[1..])
  }

  function NamePrefix(t: Numbered): string {
    match t
    case TrueAt(_) => "TRUE"
    case EndAt(_) => "END"
    case ReturnAt(_) => "RETURN"
  }

  /** Different numbered labels have different names: the prefix gives the kind and the digits the number. */
  lemma NameInjective(t: Numbered, u: Numbered)
    ensures Name(t) == Name(u) ==> t == u
  {
    var p, q := NamePrefix(t), NamePrefix(u);
    assert Name(t) == p + NatStr(t.n) && Name(u) == q + NatStr(u.n);
    if Name(t) == Name(u) {
      assert p[0] == Name(t)[0] == Name(u)[0] == q[0];
      assert p == q;
      assert Name(t)[|p|..] == NatStr(t.n) && Name(u)[|q|..] == NatStr(u.n);
      NatStrInjective(t.n, u.n);
    }
  }

  /** Whether t is numbered from the counters of a up to, not including, those of b. */
  predicate Between(t: Numbered, a: WriterState, b: WriterState) {
    if t.ReturnAt? then a.callCnt <= t.n < b.callCnt else a.labelCnt <= t.n < b.labelCnt
  }

  predicate AllBetween(ts: seq<Numbered>, a: WriterState, b: WriterState) {
    forall i :: 0 <= i < |ts| ==> Between(ts[i], a, b)
  }

  predicate NoRepeats(ts: seq<Numbered>) {
    forall i, j :: 0 <= i < j < |ts| ==> ts[i] != ts[j]
  }

  /** The numbered labels one command declares. */
  function CmdNumbered(st: WriterState, cmd: VmCommand): seq<Numbered> {
    if IsCompareCmd(cmd) then [TrueAt(st.labelCnt), EndAt(st.labelCnt)]
    else if cmd.CallCmd? then [ReturnAt(st.callCnt)]
    else []
  }

  /** The numbered labels of a sequence of commands written one after the other. */
  function RunNumbered(st: WriterState, cmds: seq<VmCommand>): seq<Numbered> {
    if cmds == [] then []
    else
      var init := cmds[..|cmds| - 1];
      RunNumbered(st, init) + CmdNumbered(LowerAll(st, init).next, cmds[|cmds| - 1])
  }

  /** The numbered labels of the files of a directory, in the loop's order. */
  function FilesNumbered(st: WriterState, files: seq<SourceFile>): seq<Numbered>
    requires LowerFiles(st, files).Some?
  {
    if files == [] then []
    else
      var init := files[..|files| - 1];
      var r := LowerFiles(st, init).value;
      var f := files[|files| - 1];
      FilesNumbered(st, init) +
        if IsVmFile(f) then RunNumbered(r.next.(filename := ModuleName(f.path)), FileCommands(f).value) else []
  }

  /** The numbered labels of the whole output: the bootstrap's RETURN0, then those of every file. */
  function ProgramNumbered(files: seq<SourceFile>): seq<Numbered>
    requires LowerFiles(InitState, files).Some?
  {
    [ReturnAt(0)] + FilesNumbered(InitState, files)
  }

  /**
   * The numbered labels of a command are exactly the labels its code
   * declares when it is a comparison or a call; other commands number none.
   */
  lemma NumberedDeclared(st: WriterState, cmd: VmCommand)
    ensures IsCompareCmd(cmd) || cmd.CallCmd? ==> Names(CmdNumbered(st, cmd)) == Declared(Lower(st, cmd).code)
    ensures !(IsCompareCmd(cmd) || cmd.CallCmd?) ==> CmdNumbered(st, cmd) == []
  {
    LowerDeclares(st, cmd);
  }

  /** The bootstrap declares only RETURN0. */
  lemma InitNumbered()
    ensures Declared(InitCode(0)) == Names([ReturnAt(0)])
  {
    InitDeclares(0);
    assert Names([ReturnAt(0)]) == [ReturnLabel(0)];
  }

  lemma {:induction false} InitDeclares(k: nat)
    ensures Declared(InitCode(k)) == [ReturnLabel(k)]
  {
    var h := [AtNum(256), Set(DestD, RegA), AtSym("SP"), Set(DestM, RegD)];
    assert InitCode(k) == h + CallCode("Sys.init", 0, k);
    DeclaredAppend(h, CallCode("Sys.init", 0, k));
    DeclaredNone(h);
    CallDeclares("Sys.init", 0, k);
  }

  /** Two runs of numbered labels, the second numbered past the first, join without repeats. */
  lemma Join(xs: seq<Numbered>, ys: seq<Numbered>, a: WriterState, b: WriterState, c: WriterState)
    requires a.labelCnt <= b.labelCnt <= c.labelCnt && a.callCnt <= b.callCnt <= c.callCnt
    requires AllBetween(xs, a, b) && NoRepeats(xs)
    requires AllBetween(ys, b, c) && NoRepeats(ys)
    ensures AllBetween(xs + ys, a, c) && NoRepeats(xs + ys)
  {
    var s := xs + ys;
    forall i, j | 0 <= i < j < |s| ensures s[i] != s[j] {
      if i < |xs| <= j {
        assert Between(s[i], a, b) && Between(s[j], b, c);
      }
    }
  }

  /** The labels of one command are numbered from the state it starts in to the state it leaves. */
  lemma CmdNumberedSpan(st: WriterState, cmd: VmCommand)
    ensures AllBetween(CmdNumbered(st, cmd), st, Lower(st, cmd).next) && NoRepeats(CmdNumbered(st, cmd))
  {
    LowerState(st, cmd);
  }

  /** A run numbers its labels without repeats, from its start state to its end state. */
  lemma {:induction false} RunNumberedSpan(st: WriterState, cmds: seq<VmCommand>)
    ensures AllBetween(RunNumbered(st, cmds), st, LowerAll(st, cmds).next)
    ensures NoRepeats(RunNumbered(st, cmds))
  {
    if cmds != [] {
      var init := cmds[..|cmds| - 1];
      var mid := LowerAll(st, init).next;
      var cmd := cmds[|cmds| - 1];
      RunNumberedSpan(st, init);
      LowerAllCounters(st, init);
      CmdNumberedSpan(mid, cmd);
      LowerState(mid, cmd);
      Join(RunNumbered(st, init), CmdNumbered(mid, cmd), st, mid, Lower(mid, cmd).next);
    }
  }

  /** Setting the module name changes no counter, so it moves no label out of its range. */
  lemma RenamedBetween(ts: seq<Numbered>, a: WriterState, b: WriterState, name: string)
    requires AllBetween(ts, a.(filename := name), b)
    ensures AllBetween(ts, a, b)
  {
    assert forall i :: 0 <= i < |ts| ==> Between(ts[i], a.(filename := name), b) ==> Between(ts[i], a, b);
  }

  /** The files of a directory number their labels without repeats, from the start state to the end state. */
  lemma {:induction false} FilesNumberedSpan(st: WriterState, files: seq<SourceFile>)
    requires LowerFiles(st, files).Some?
    ensures AllBetween(FilesNumbered(st, files), st, LowerFiles(st, files).value.next)
    ensures NoRepeats(FilesNumbered(st, files))
  {
    if files != [] {
      var init := files[..|files| - 1];
      var r := LowerFiles(st, init).value;
      var f := files[|files| - 1];
      FilesNumberedSpan(st, init);
      LowerFilesCounters(st, init);
      if IsVmFile(f) {
        var start := r.next.(filename := ModuleName(f.path));
        var cs := FileCommands(f).value;
        RunNumberedSpan(start, cs);
        LowerAllCounters(start, cs);
        RenamedBetween(RunNumbered(start, cs), r.next, LowerAll(start, cs).next, ModuleName(f.path));
        Join(FilesNumbered(st, init), RunNumbered(start, cs), st, r.next, LowerAll(start, cs).next);
      } else {
        assert FilesNumbered(st, files) == FilesNumbered(st, init) + [];
      }
    }
  }

  /**
   * No numbered label is declared twice in the whole output: the
   * counters are shared by the bootstrap and every file, so the bootstrap's
   * RETURN0 and the TRUEn, ENDn and RETURNk of all files have pairwise
   * different names.
   */
  lemma ProgramLabelsDistinct(dir: string, files: seq<SourceFile>)
    requires TranslateProgram(dir, files).Some?
    ensures LowerFiles(InitState, files).Some?
    ensures var ns := Names(ProgramNumbered(files));
      forall i, j :: 0 <= i < j < |ns| ==> ns[i] != ns[j]
    ensures forall n :: n in Names(ProgramNumbered(files)) ==>
      n in Declared(InitCode(0) + LowerFiles(InitState, files).value.code)
  {
    assert LowerFiles(InitState, files).Some?;
    ProgramNumberedDistinct(files);
    ProgramDeclaresNumbered(files);
  }

  /** Every numbered label of the program is declared in its code: the bootstrap and then each file's. */
  lemma ProgramDeclaresNumbered(files: seq<SourceFile>)
    requires LowerFiles(InitState, files).Some?
    ensures forall n :: n in Names(ProgramNumbered(files)) ==>
      n in Declared(InitCode(0) + LowerFiles(InitState, files).value.code)
  {
    var code := LowerFiles(InitState, files).value.code;
    InitNumbered();
    FilesDeclaresNumbered(InitState, files);
    NamesAppend([ReturnAt(0)], FilesNumbered(InitState, files));
    DeclaredAppend(InitCode(0), code);
  }

  lemma {:induction false} NamesAppend(a: seq<Numbered>, b: seq<Numbered>)
    ensures Names(a + b) == Names(a) + Names(b)
  {
    if a != [] {
      assert (a + b)[1..] == a[1..] + b;
      NamesAppend(a[1..], b);
    } else {
      assert a + b == b;
    }
  }

  /** Every numbered label of a run of commands is declared in the run's code. */
  lemma {:induction false} RunDeclaresNumbered(st: WriterState, cmds: seq<VmCommand>)
    ensures forall n :: n in Names(RunNumbered(st, cmds)) ==> n in Declared(LowerAll(st, cmds).code)
  {
    if cmds != [] {
      var init := cmds[..|cmds| - 1];
      var r := LowerAll(st, init);
      var cmd := cmds[|cmds| - 1];
      RunDeclaresNumbered(st, init);
      NamesAppend(RunNumbered(st, init), CmdNumbered(r.next, cmd));
      DeclaredAppend(r.code, Lower(r.next, cmd).code);
      NumberedDeclared(r.next, cmd);
    }
  }

  /** Every numbered label of the files is declared in their code. */
  lemma {:induction false} FilesDeclaresNumbered(st: WriterState, files: seq<SourceFile>)
    requires LowerFiles(st, files).Some?
    ensures forall n :: n in Names(FilesNumbered(st, files)) ==> n in Declared(LowerFiles(st, files).value.code)
  {
    if files != [] {
      var init := files[..|files| - 1];
      var r := LowerFiles(st, init).value;
      var f := files[|files| - 1];
      FilesDeclaresNumbered(st, init);
      if IsVmFile(f) {
        var start := r.next.(filename := ModuleName(f.path));
        var cs := FileCommands(f).value;
        RunDeclaresNumbered(start, cs);
        NamesAppend(FilesNumbered(st, init), RunNumbered(start, cs));
        DeclaredAppend(r.code, LowerAll(start, cs).code);
      } else {
        assert FilesNumbered(st, files) == FilesNumbered(st, init) + [] == FilesNumbered(st, init);
        assert LowerFiles(st, files) == Some(r);
      }
    }
  }

  lemma ProgramNumberedDistinct(files: seq<SourceFile>)
    requires LowerFiles(InitState, files).Some?
    ensures var ns := Names(ProgramNumbered(files));
      forall i, j :: 0 <= i < j < |ns| ==> ns[i] != ns[j]
  {
    var fin := LowerFiles(InitState, files).value.next;
    FilesNumberedSpan(InitState, files);
    LowerFilesCounters(InitState, files);
    Join([ReturnAt(0)], FilesNumbered(InitState, files), WriterState("", "", 0, 0), InitState, fin);
    DistinctNames(ProgramNumbered(files));
  }

  /** Distinct numbered labels have distinct names. */
  lemma DistinctNames(ts: seq<Numbered>)
    requires NoRepeats(ts)
    ensures forall i, j :: 0 <= i < j < |Names(ts)| ==> Names(ts)[i] != Names(ts)[j]
  {
    NamesAt(ts);
    forall i, j | 0 <= i < j < |ts| ensures Names(ts)[i] != Names(ts)[j] {
      NameInjective(ts[i], ts[j]);
    }
  }

  lemma {:induction false} NamesAt(ts: seq<Numbered>)
    ensures forall i :: 0 <= i < |ts| ==> Names(ts)[i] == Name(ts[i])
  {
    if ts != [] {
      NamesAt(ts[1..]);
      assert forall i :: 0 < i < |ts| ==> ts[1..][i - 1] == ts[i];
    }
  }

  // ---------------------------------------------------------------------
  // The driver
  // ---------------------------------------------------------------------

  /** The writer's state as the lowering functions see it. */
  function StateOf(w: CodeWriter): WriterState
    reads w
  {
    WriterState(w.filename, w.functionName, w.labelCnt, w.callCnt)
  }

  /**
   * The body of the `while` loop of `main` for one command: the write
   * method for its type, given `arg1` and `arg2`. False, with nothing
   * written, when `arg2` has no number to read.
   */
  method Dispatch(w: CodeWriter, c: string) returns (ok: bool)
    modifies w`out, w`labelCnt, w`callCnt, w`functionName
    ensures ok <==> Decode(c).Some?
    ensures ok ==> w.out == old(w.out) + Lines(Lower(old(StateOf(w)), Decode(c).value).code)
    ensures ok ==> StateOf(w) == Lower(old(StateOf(w)), Decode(c).value).next
    ensures !ok ==> w.out == old(w.out)
  {
    var cmd := Decode(c);
    if cmd.None? {
      return false;
    }
    Write(w, cmd.value);
    ok := true;
  }

  /** The write method for a decoded command, with its operands. */
  method Write(w: CodeWriter, cmd: VmCommand)
    modifies w`out, w`labelCnt, w`callCnt, w`functionName
    ensures w.out == old(w.out) + Lines(Lower(old(StateOf(w)), cmd).code)
    ensures StateOf(w) == Lower(old(StateOf(w)), cmd).next
  {
    if cmd.ArithmeticCmd? || cmd.PushCmd? || cmd.PopCmd? {
      WriteStack(w, cmd);
    } else {
      WriteFlow(w, cmd);
    }
  }

  /** Arithmetic, push and pop: `writeArithmetic` and `writePushPop`. */
  method WriteStack(w: CodeWriter, cmd: VmCommand)
    requires cmd.ArithmeticCmd? || cmd.PushCmd? || cmd.PopCmd?
    modifies w`out, w`labelCnt
    ensures w.out == old(w.out) + Lines(Lower(old(StateOf(w)), cmd).code)
    ensures StateOf(w) == Lower(old(StateOf(w)), cmd).next
  {
    match cmd {
      case ArithmeticCmd(op) => w.WriteArithmetic(op);
      case PushCmd(seg, i) => w.WritePushPop(Push, seg, i);
      case PopCmd(seg, i) => w.WritePushPop(Pop, seg, i);
    }
  }

  /** Program flow and function commands. */
  method WriteFlow(w: CodeWriter, cmd: VmCommand)
    requires !(cmd.ArithmeticCmd? || cmd.PushCmd? || cmd.PopCmd?)
    modifies w`out, w`callCnt, w`functionName
    ensures w.out == old(w.out) + Lines(Lower(old(StateOf(w)), cmd).code)
    ensures StateOf(w) == Lower(old(StateOf(w)), cmd).next
  {
    if cmd.LabelCmd? || cmd.GotoCmd? || cmd.IfGotoCmd? {
      WriteBranch(w, cmd);
    } else {
      WriteFunctionCmd(w, cmd);
    }
  }

  /** label, goto and if-goto: `writeLabel`, `writeGoto` and `writeIf`. */
  method WriteBranch(w: CodeWriter, cmd: VmCommand)
    requires cmd.LabelCmd? || cmd.GotoCmd? || cmd.IfGotoCmd?
    modifies w`out
    ensures w.out == old(w.out) + Lines(Lower(old(StateOf(w)), cmd).code)
    ensures StateOf(w) == Lower(old(StateOf(w)), cmd).next
  {
    match cmd {
      case LabelCmd(l) => w.WriteLabel(l);
      case GotoCmd(l) => w.WriteGoto(l);
      case IfGotoCmd(l) => w.WriteIf(l);
    }
  }

  /** function, call and return: `writeFunction`, `writeCall` and `writeReturn`. */
  method WriteFunctionCmd(w: CodeWriter, cmd: VmCommand)
    requires cmd.FunctionCmd? || cmd.CallCmd? || cmd.ReturnCmd?
    modifies w`out, w`callCnt, w`functionName
    ensures w.out == old(w.out) + Lines(Lower(old(StateOf(w)), cmd).code)
    ensures StateOf(w) == Lower(old(StateOf(w)), cmd).next
  {
    ghost var st := StateOf(w);
    if cmd.FunctionCmd? {
      assert Lower(st, cmd) == Lowered(FunctionCode(cmd.name, cmd.count), st.(functionName := cmd.name));
      w.WriteFunction(cmd.name, cmd.count);
    } else {
      WriteCallReturn(w, cmd);
    }
  }

  method WriteCallReturn(w: CodeWriter, cmd: VmCommand)
    requires cmd.CallCmd? || cmd.ReturnCmd?
    modifies w`out, w`callCnt
    ensures w.out == old(w.out) + Lines(Lower(old(StateOf(w)), cmd).code)
    ensures StateOf(w) == Lower(old(StateOf(w)), cmd).next
  {
    ghost var st := StateOf(w);
    if cmd.CallCmd? {
      assert Lower(st, cmd) == Lowered(CallCode(cmd.name, cmd.count, st.callCnt), st.(callCnt := st.callCnt + 1));
      w.WriteCall(cmd.name, cmd.count);
    } else {
      WriteReturnCmd(w, cmd);
    }
  }

  method WriteReturnCmd(w: CodeWriter, cmd: VmCommand)
    requires cmd.ReturnCmd?
    modifies w`out
    ensures w.out == old(w.out) + Lines(Lower(old(StateOf(w)), cmd).code)
    ensures StateOf(w) == Lower(old(StateOf(w)), cmd).next
  {
    ghost var st := StateOf(w);
    assert cmd == ReturnCmd;
    assert Lower(st, cmd) == Lowered(ReturnCode(), st);
    w.WriteReturn();
  }

  /** The commands after one more line. */
  lemma DecodeAllStep(lines: seq<string>, i: nat)
    requires i < |lines| && DecodeAll(lines[..i]).Some? && Decode(lines[i]).Some?
    ensures DecodeAll(lines[..i + 1]) == Some(DecodeAll(lines[..i]).value + [Decode(lines[i]).value])
  {
    assert lines[..i + 1][..i] == lines[..i];
  }

  /** The code after one more command. */
  lemma LowerAllSnoc(st: WriterState, cmds: seq<VmCommand>, cmd: VmCommand)
    ensures LowerAll(st, cmds + [cmd]) ==
      var r := LowerAll(st, cmds);
      var l := Lower(r.next, cmd);
      Lowered(r.code + l.code, l.next)
  {
    assert (cmds + [cmd])[..|cmds|] == cmds;
  }

  /** One pass of the `while` loop of `main`: command i of lines, dispatched after the first i. */
  method DispatchLine(w: CodeWriter, c: string, ghost lines: seq<string>, ghost i: nat, ghost start: WriterState,
                      ghost out0: seq<string>, ghost cs: seq<VmCommand>, ghost code: seq<Instr>)
    returns (ok: bool, ghost cs': seq<VmCommand>, ghost code': seq<Instr>)
    requires i < |lines| && c == lines[i] && DecodeAll(lines[..i]) == Some(cs)
    requires LowerAll(start, cs) == Lowered(code, StateOf(w)) && w.out == out0 + Lines(code)
    modifies w`out, w`labelCnt, w`callCnt, w`functionName
    ensures !ok ==> DecodeAll(lines).None?
    ensures ok ==> DecodeAll(lines[..i + 1]) == Some(cs')
    ensures ok ==> LowerAll(start, cs') == Lowered(code', StateOf(w)) && w.out == out0 + Lines(code')
  {
    ghost var st := StateOf(w);
    ok := Dispatch(w, c);
    cs', code' := cs, code;
    if !ok {
      return;
    }
    ghost var cmd := Decode(c).value;
    DecodeAllStep(lines, i);
    LowerAllSnoc(start, cs, cmd);
    LinesJoin(out0, code, Lower(st, cmd).code);
    code' := code + Lower(st, cmd).code;
    cs' := cs + [cmd];
  }

  /**
   * One iteration of the `for` loop of `main` on a ".vm" file: a Parser
   * for it, `setFileName`, and the dispatch of each of its commands.
   */
  method TranslateFile(w: CodeWriter, f: SourceFile) returns (ok: bool)
    modifies w`out, w`labelCnt, w`callCnt, w`functionName, w`filename
    ensures ok <==> FileCommands(f).Some?
    ensures ok ==>
      var l := LowerAll(old(StateOf(w)).(filename := ModuleName(f.path)), FileCommands(f).value);
      w.out == old(w.out) + Lines(l.code) && StateOf(w) == l.next
  {
    var parser := new Parser(f.lines);
    w.SetFileName(f.path);
    ok := DispatchAll(w, parser);
  }

  /** The `while` loop of `main` over the commands of one file. */
  method DispatchAll(w: CodeWriter, parser: Parser) returns (ok: bool)
    requires parser.idx == 0
    modifies w`out, w`labelCnt, w`callCnt, w`functionName, parser
    ensures ok <==> DecodeAll(old(parser.commands)).Some?
    ensures ok ==>
      var l := LowerAll(old(StateOf(w)), DecodeAll(old(parser.commands)).value);
      w.out == old(w.out) + Lines(l.code) && StateOf(w) == l.next
  {
    ghost var lines := parser.commands;
    ghost var start := StateOf(w);
    ghost var code: seq<Instr> := [];
    ghost var cs: seq<VmCommand> := [];
    assert lines[..0] == [];
    while parser.HasMoreCommands()
      invariant parser.commands == lines && parser.idx <= |lines|
      invariant DecodeAll(lines[..parser.idx]) == Some(cs)
      invariant LowerAll(start, cs) == Lowered(code, StateOf(w))
      invariant w.out == old(w.out) + Lines(code)
      decreases |lines| - parser.idx
    {
      ghost var i := parser.idx;
      parser.Advance();
      var c := parser.currentCommand;
      ok, cs, code := DispatchLine(w, c, lines, i, start, old(w.out), cs, code);
      if !ok {
        return;
      }
    }
    assert lines[..parser.idx] == lines;
    ok := true;
  }

  /**
   * `main`: a writer for dir, the bootstrap, then every ".vm" file in
   * turn. The output is the one `TranslateProgram` describes; None is the
   * run that `stoi` ends.
   */
  method Translate(dir: string, files: seq<SourceFile>) returns (r: Option<Output>)
    ensures r == TranslateProgram(dir, files)
  {
    var w := new CodeWriter(dir);
    ghost var k0 := w.callCnt;
    w.WriteInit();
    ghost var boot, init := w.out, StateOf(w);
    var ok := TranslateAll(w, files);
    if ok {
      r := Some(Output(w.outPath, w.out));
    } else {
      r := None;
    }
    ProgramOf(dir, files, k0, boot, init, r);
  }

  /** What Translate writes is TranslateProgram, once the bootstrap is written. */
  lemma ProgramOf(dir: string, files: seq<SourceFile>, k0: nat, boot: seq<string>, init: WriterState, r: Option<Output>)
    requires k0 == 0 && boot == Lines(InitCode(k0)) && init == InitState
    requires LowerFiles(init, files).None? ==> r.None?
    requires LowerFiles(init, files).Some? ==> r == Some(Output(OutputPath(dir), boot + Lines(LowerFiles(init, files).value.code)))
    ensures r == TranslateProgram(dir, files)
  {
  }

  /** The `for` loop of `main`, after the bootstrap. */
  method TranslateAll(w: CodeWriter, files: seq<SourceFile>) returns (ok: bool)
    modifies w`out, w`labelCnt, w`callCnt, w`functionName, w`filename
    ensures ok <==> LowerFiles(old(StateOf(w)), files).Some?
    ensures ok ==> w.out == old(w.out) + Lines(LowerFiles(old(StateOf(w)), files).value.code)
  {
    ghost var init := StateOf(w);
    ghost var code: seq<Instr> := [];
    assert files[..0] == [];
    var k := 0;
    while k < |files|
      invariant 0 <= k <= |files|
      invariant LowerFiles(init, files[..k]) == Some(Lowered(code, StateOf(w)))
      invariant w.out == old(w.out) + Lines(code)
    {
      var f := files[k];
      if EndsWith(f.path, ".vm") {
        ghost var prev := Lowered(code, StateOf(w));
        ok := TranslateFile(w, f);
        if !ok {
          FailsFrom(init, files, k);
          return;
        }
        ghost var l := LowerAll(prev.next.(filename := ModuleName(f.path)), FileCommands(f).value);
        LowerFilesNext(init, files, k, prev);
        LinesJoin(old(w.out), code, l.code);
        code := code + l.code;
      } else {
        LowerFilesSkip(init, files, k);
      }
      k := k + 1;
    }
    assert files[..k] == files;
    ok := true;
  }

  lemma LowerFilesNext(st: WriterState, files: seq<SourceFile>, k: nat, prev: Lowered)
    requires k < |files| && IsVmFile(files[k]) && FileCommands(files[k]).Some?
    requires LowerFiles(st, files[..k]) == Some(prev)
    ensures LowerFiles(st, files[..k + 1]) ==
      var l := LowerAll(prev.next.(filename := ModuleName(files[k].path)), FileCommands(files[k]).value);
      Some(Lowered(prev.code + l.code, l.next))
  {
    assert files[..k + 1] == files[..k] + [files[k]];
    LowerFilesSnoc(st, files[..k], files[k], prev);
  }

  lemma LowerFilesSnoc(st: WriterState, done: seq<SourceFile>, f: SourceFile, prev: Lowered)
    requires IsVmFile(f) && FileCommands(f).Some? && LowerFiles(st, done) == Some(prev)
    ensures LowerFiles(st, done + [f]) ==
      var l := LowerAll(prev.next.(filename := ModuleName(f.path)), FileCommands(f).value);
      Some(Lowered(prev.code + l.code, l.next))
  {
    assert (done + [f])[..|done|] == done;
  }

  lemma LowerFilesSkip(st: WriterState, files: seq<SourceFile>, k: nat)
    requires k < |files| && !IsVmFile(files[k])
    ensures LowerFiles(st, files[..k + 1]) == LowerFiles(st, files[..k])
  {
    assert files[..k + 1][..k] == files[..k];
  }
}
