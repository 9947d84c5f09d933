/**
 * The Hack assembly templates the code writers of both translators emit
 * (vm_translator.cpp:132-380 and 07/vm_translator.cpp:118-254), how the
 * module name is taken from a path, and the symbols they generate.
 */
module VmCode {
  import opened Text
  import opened Hack

  /**
   * The two translators differ in three details of their templates: how a
   * binary operation or a pop takes the top of the stack, the scratch cell
   * of pop, and the separator of the static symbol.
   */
  datatype Dialect = Full | Early

  // ---------------------------------------------------------------------
  // Names
  // ---------------------------------------------------------------------

  /** The text after the last '/' of a path, or the whole path. */
  function BaseName(path: string): (b: string)
    ensures |b| <= |path| && b == path[|path| - |b|..]
    ensures forall k :: 0 <= k < |b| ==> b[k] != '/'
    ensures |b| < |path| ==> path[|path| - |b| - 1] == '/'
  {
    match LastIndex(path, c => c == '/')
    case None => path
    case Some(i) => path[i + 1..]
  }

  /**
   * `setFileName`: the base name without its last three characters (the
   * ".vm" of a VM file). A base name shorter than that is kept whole, as
   * `substr` with a wrapped-around length keeps the rest of the string.
   */
  function ModuleName(path: string): (r: string)
    ensures |BaseName(path)| >= 3 ==> r + BaseName(path)[|BaseName(path)| - 3..] == BaseName(path)
    ensures |BaseName(path)| < 3 ==> r == BaseName(path)
  {
    var b := BaseName(path);
    if |b| >= 3 then
      DropLast3(b);
      b[..|b| - 3]
    else b
  }

  lemma DropLast3(b: string)
    requires |b| >= 3
    ensures b[..|b| - 3] + b[|b| - 3..] == b
  {
  }

  /** `ends_with`: the last |ending| characters of value are ending. */
  predicate EndsWith(value: string, ending: string) {
    |ending| <= |value| && value[|value| - |ending|..] == ending
  }

  /** value ends with ending exactly when it is some text followed by ending. */
  lemma EndsWithIsSuffix(value: string, ending: string)
    ensures EndsWith(value, ending) <==> exists p :: value == p + ending
  {
    if EndsWith(value, ending) {
      assert value == value[..|value| - |ending|] + ending;
    }
  }

  /** The symbol of `static i` in the module named filename. */
  function StaticSymbol(dialect: Dialect, filename: string, i: nat): string {
    match dialect
    case Full => filename + "." + NatStr(i)
    case Early => filename + NatStr(i)
  }

  /** The label a command names inside function fn: `fn$label`. */
  function Scoped(fn: string, name: string): string {
    fn + "$" + name
  }

  predicate Lacks(s: string, c: char) {
    forall i :: 0 <= i < |s| ==> s[i] != c
  }

  /**
   * The base name is the one suffix without '/' that is either the whole
   * path or starts right after a '/'.
   */
  lemma BaseNameUnique(path: string, b: string)
    requires |b| <= |path| && b == path[|path| - |b|..]
    requires forall k :: 0 <= k < |b| ==> b[k] != '/'
    requires |b| < |path| ==> path[|path| - |b| - 1] == '/'
    ensures BaseName(path) == b
  {
    var c := BaseName(path);
    assert forall k :: |path| - |c| <= k < |path| ==> path[k] == c[k - |path| + |c|];
    assert forall k :: |path| - |b| <= k < |path| ==> path[k] == b[k - |path| + |b|];
    assert |b| == |c|;
  }

  /** Appending text without '/' to a path appends it to the base name. */
  lemma BaseNameAppend(path: string, s: string)
    requires Lacks(s, '/')
    ensures BaseName(path + s) == BaseName(path) + s
  {
    var b, p := BaseName(path), path + s;
    assert p[|p| - |b + s|..] == b + s;
    assert |b| < |path| ==> p[|p| - |b + s| - 1] == path[|path| - |b| - 1];
    BaseNameUnique(p, b + s);
  }

  /** For a path ending in ".vm", the module name is the base name without ".vm". */
  lemma ModuleNameOfVmFile(path: string)
    requires EndsWith(path, ".vm")
    ensures ModuleName(path) + ".vm" == BaseName(path)
  {
    var b := BaseName(path);
    assert path[|path| - 3..] == ".vm";
    assert forall k :: |path| - 3 <= k < |path| ==> path[k] == path[|path| - 3..][k - |path| + 3];
    assert |b| >= 3;
    assert b[|b| - 3..] == path[|path| - 3..];
    assert b == b[..|b| - 3] + b[|b| - 3..];
  }

  /**
   * `prefix + sep + suffix` recovers both parts when the prefix has no
   * sep: the scoped labels of functions whose names have no '$' and the
   * static symbols of modules whose names have no '.' never collide.
   */
  lemma JoinedSeparator(p: string, s: string, sep: char)
    requires Lacks(p, sep)
    ensures (p + [sep] + s)[|p|] == sep
    ensures forall i :: 0 <= i < |p| ==> (p + [sep] + s)[i] != sep
  {
  }

  lemma JoinedInjective(p1: string, s1: string, p2: string, s2: string, sep: char)
    requires Lacks(p1, sep) && Lacks(p2, sep)
    ensures p1 + [sep] + s1 == p2 + [sep] + s2 <==> p1 == p2 && s1 == s2
  {
    var x, y := p1 + [sep] + s1, p2 + [sep] + s2;
    if x == y {
      JoinedSeparator(p1, s1, sep);
      JoinedSeparator(p2, s2, sep);
      assert |p1| == |p2|;
      assert p1 == x[..|p1|] && p2 == y[..|p2|];
      assert s1 == x[|p1| + 1..] && s2 == y[|p2| + 1..];
    }
  }

  lemma ScopedInjective(f1: string, l1: string, f2: string, l2: string)
    requires Lacks(f1, '$') && Lacks(f2, '$')
    ensures Scoped(f1, l1) == Scoped(f2, l2) <==> f1 == f2 && l1 == l2
  {
    JoinedInjective(f1, l1, f2, l2, '$');
  }

  /** Distinct (module, index) pairs get distinct static symbols in the full translator. */
  lemma StaticFullInjective(m1: string, i: nat, m2: string, j: nat)
    requires Lacks(m1, '.') && Lacks(m2, '.')
    ensures StaticSymbol(Full, m1, i) == StaticSymbol(Full, m2, j) <==> m1 == m2 && i == j
  {
    JoinedInjective(m1, NatStr(i), m2, NatStr(j), '.');
    NatStrInjective(i, j);
  }

  /** In the early translator's single module, distinct indices get distinct static symbols. */
  lemma StaticEarlyInjective(m: string, i: nat, j: nat)
    ensures StaticSymbol(Early, m, i) == StaticSymbol(Early, m, j) <==> i == j
  {
    var x, y := m + NatStr(i), m + NatStr(j);
    if x == y {
      assert NatStr(i) == x[|m|..] && NatStr(j) == y[|m|..];
    }
    NatStrInjective(i, j);
  }

  function TrueLabel(n: nat): string { "TRUE" + NatStr(n) }

  function EndLabel(n: nat): string { "END" + NatStr(n) }

  function ReturnLabel(k: nat): string { "RETURN" + NatStr(k) }

  // ---------------------------------------------------------------------
  // Instruction shorthands
  // ---------------------------------------------------------------------

  function Set(d: Dest, c: Comp): Instr { Compute(d, c, NoJump) }

  function Goto(c: Comp, j: Jump): Instr { Compute(NoDest, c, j) }

  /** Where the top of the stack is taken from: pop SP and point A at the old top. */
  function PopTop(dialect: Dialect): seq<Instr> {
    match dialect
    case Full => [AtSym("SP"), Set(DestAM, MMinusOne)]
    case Early => [AtSym("SP"), Set(DestM, MMinusOne), Set(DestA, RegM)]
  }

  /** The scratch cell pop keeps its target address in. */
  function Scratch(dialect: Dialect): string {
    match dialect
    case Full => "R13"
    case Early => "address"
  }

  // ---------------------------------------------------------------------
  // Arithmetic
  // ---------------------------------------------------------------------

  predicate IsUnary(op: string) {
    op == "not" || op == "neg"
  }

  /** Everything but not, neg, add, sub, or and and is written as a comparison. */
  predicate IsComparison(op: string) {
    !IsUnary(op) && op != "add" && op != "sub" && op != "or" && op != "and"
  }

  /** eq jumps on equal, gt on greater, every other comparison on less. */
  function CompareJump(op: string): Jump {
    if op == "eq" then JEQ else if op == "gt" then JGT else JLT
  }

  function BinaryComp(op: string): Comp
    requires !IsUnary(op) && !IsComparison(op)
  {
    if op == "add" then MPlusD
    else if op == "sub" then MMinusD
    else if op == "or" then MOrD
    else MAndD
  }

  /** D := x - y; jump to TRUEn when the comparison holds. */
  function CompareTest(op: string, n: nat): seq<Instr> {
    [Set(DestD, MMinusD), AtSym(TrueLabel(n)), Goto(RegD, CompareJump(op))]
  }

  /** RAM[SP-1] := 0 (false); jump to ENDn. */
  function FalseBranch(n: nat): seq<Instr> {
    [AtSym("SP"), Set(DestA, MMinusOne), Set(DestM, Zero), AtSym(EndLabel(n)), Goto(Zero, JMP)]
  }

  /** (TRUEn): RAM[SP-1] := -1 (true); (ENDn). */
  function TrueBranch(n: nat): seq<Instr> {
    [Declare(TrueLabel(n)), AtSym("SP"), Set(DestA, MMinusOne), Set(DestM, MinusOne), Declare(EndLabel(n))]
  }

  /** The comparison body with label number n. */
  function CompareCode(op: string, n: nat): seq<Instr> {
    CompareTest(op, n) + FalseBranch(n) + TrueBranch(n)
  }

  /** Pops y into D and points A at x, which becomes the new top. */
  function OperandsCode(dialect: Dialect): seq<Instr> {
    PopTop(dialect) + [Set(DestD, RegM)] + [AtSym("SP"), Set(DestA, MMinusOne)]
  }

  /** `writeArithmetic` with the comparison counter at n. */
  function ArithmeticCode(dialect: Dialect, op: string, n: nat): seq<Instr> {
    if op == "not" then [AtSym("SP"), Set(DestA, MMinusOne), Set(DestM, NotM)]
    else if op == "neg" then [AtSym("SP"), Set(DestA, MMinusOne), Set(DestM, NegM)]
    else
      OperandsCode(dialect) +
      if IsComparison(op) then CompareCode(op, n) else [Set(DestM, BinaryComp(op))]
  }

  // ---------------------------------------------------------------------
  // Push and pop
  // ---------------------------------------------------------------------

  /** The pointer register of a base segment. */
  function SegmentBase(seg: string): Option<string> {
    if seg == "argument" then Some("ARG")
    else if seg == "local" then Some("LCL")
    else if seg == "this" then Some("THIS")
    else if seg == "that" then Some("THAT")
    else None
  }

  predicate KnownSegment(seg: string) {
    SegmentBase(seg).Some? || seg == "static" || seg == "pointer" || seg == "temp"
  }

  /**
   * `getAddress`: code that leaves the address of `seg i` in A. A segment
   * it does not know (constant among them) gets no code at all.
   */
  function AddressCode(dialect: Dialect, filename: string, seg: string, i: nat): seq<Instr> {
    match SegmentBase(seg)
    case Some(base) => [AtNum(i), Set(DestD, RegA), AtSym(base), Set(DestA, DPlusM)]
    case None =>
      if seg == "static" then [AtSym(StaticSymbol(dialect, filename, i))]
      else if seg == "pointer" then [AtSym("R" + NatStr(3 + i))]
      else if seg == "temp" then [AtSym("R" + NatStr(5 + i))]
      else []
  }

  /** `writePushPop` for push: D := the value, RAM[SP] := D, SP := SP + 1. */
  function PushCode(dialect: Dialect, filename: string, seg: string, i: nat): seq<Instr> {
    (if seg == "constant" then [AtNum(i), Set(DestD, RegA)]
     else AddressCode(dialect, filename, seg, i) + [Set(DestD, RegM)]) +
    [AtSym("SP"), Set(DestA, RegM), Set(DestM, RegD), AtSym("SP"), Set(DestM, MPlusOne)]
  }

  /** `writePushPop` for pop: the target into the scratch cell, pop into D, store. */
  function PopCode(dialect: Dialect, filename: string, seg: string, i: nat): seq<Instr> {
    AddressCode(dialect, filename, seg, i) +
    [Set(DestD, RegA), AtSym(Scratch(dialect)), Set(DestM, RegD)] +
    PopTop(dialect) + [Set(DestD, RegM)] +
    [AtSym(Scratch(dialect)), Set(DestA, RegM), Set(DestM, RegD)]
  }

  // ---------------------------------------------------------------------
  // Program flow, functions
  // ---------------------------------------------------------------------

  function LabelCode(fn: string, name: string): seq<Instr> {
    [Declare(Scoped(fn, name))]
  }

  function GotoCode(fn: string, name: string): seq<Instr> {
    [AtSym(Scoped(fn, name)), Goto(Zero, JMP)]
  }

  function IfCode(fn: string, name: string): seq<Instr> {
    [AtSym("SP"), Set(DestAM, MMinusOne), Set(DestD, RegM), AtSym(Scoped(fn, name)), Goto(RegD, JNE)]
  }

  /** Push D: SP := SP + 1, then RAM[SP - 1] := D. */
  function PushD(): seq<Instr> {
    [AtSym("SP"), Set(DestM, MPlusOne), Set(DestA, MMinusOne), Set(DestM, RegD)]
  }

  /** The loop body of `writeCall`: push the value of one pointer register. */
  function SaveCode(reg: string): seq<Instr> {
    [AtSym(reg), Set(DestD, RegM)] + PushD()
  }

  function SaveAll(regs: seq<string>): seq<Instr> {
    if regs == [] then [] else SaveCode(regs[0]) + SaveAll(regs[1..])
  }

  /** Saving a + b is saving a, then b: what lets `writeCall` emit the frame one register at a time. */
  lemma {:induction false} SaveAllAppend(a: seq<string>, b: seq<string>)
    ensures SaveAll(a + b) == SaveAll(a) + SaveAll(b)
  {
    if a == [] {
      assert a + b == b;
    } else {
      assert (a + b)[0] == a[0];
      assert (a + b)[1..] == a[1..] + b;
      SaveAllAppend(a[1..], b);
    }
  }

  const FrameRegisters: seq<string> := ["LCL", "ARG", "THIS", "THAT"]

  /** ARG := SP - n - 5. */
  function ArgCode(n: nat): seq<Instr> {
    [AtNum(n + 5), Set(DestD, RegA), AtSym("SP"), Set(DestD, MMinusD), AtSym("ARG"), Set(DestM, RegD)]
  }

  /** LCL := SP. */
  function LclCode(): seq<Instr> {
    [AtSym("SP"), Set(DestD, RegM), AtSym("LCL"), Set(DestM, RegD)]
  }

  /** What `writeCall` writes after pushing the caller's frame. */
  function CallTail(f: string, n: nat, k: nat): seq<Instr> {
    ArgCode(n) + LclCode() + [AtSym(f), Goto(Zero, JMP)] + [Declare(ReturnLabel(k))]
  }

  function CallHead(k: nat): seq<Instr> {
    [AtSym(ReturnLabel(k)), Set(DestD, RegA)] + PushD()
  }

  /** `writeCall(f, n)` with the call counter at k. */
  function CallCode(f: string, n: nat, k: nat): seq<Instr> {
    CallHead(k) + SaveAll(FrameRegisters) + CallTail(f, n, k)
  }

  /** The loop body of `writeReturn`: restore one register from the next lower frame cell. */
  function RestoreCode(reg: string): seq<Instr> {
    [AtSym("LCL"), Set(DestAM, MMinusOne), Set(DestD, RegM), AtSym(reg), Set(DestM, RegD)]
  }

  function RestoreAll(regs: seq<string>): seq<Instr> {
    if regs == [] then [] else RestoreCode(regs[0]) + RestoreAll(regs[1..])
  }

  /** Restoring a + b is restoring a, then b. */
  lemma {:induction false} RestoreAllAppend(a: seq<string>, b: seq<string>)
    ensures RestoreAll(a + b) == RestoreAll(a) + RestoreAll(b)
  {
    if a == [] {
      assert a + b == b;
    } else {
      assert (a + b)[0] == a[0];
      assert (a + b)[1..] == a[1..] + b;
      RestoreAllAppend(a[1..], b);
    }
  }

  const RestoreOrder: seq<string> := ["THAT", "THIS", "ARG", "LCL"]

  /** R13 := RAM[LCL - 5], the return address. */
  function SaveReturnCode(): seq<Instr> {
    [AtNum(5), Set(DestD, RegA), AtSym("LCL"), Set(DestA, MMinusD), Set(DestD, RegM), AtSym("R13"), Set(DestM, RegD)]
  }

  /** RAM[ARG] := the top of the stack, the callee's result. */
  function ResultCode(): seq<Instr> {
    [AtSym("SP"), Set(DestA, MMinusOne), Set(DestD, RegM), AtSym("ARG"), Set(DestA, RegM), Set(DestM, RegD)]
  }

  /** SP := ARG + 1. */
  function SpCode(): seq<Instr> {
    [AtSym("ARG"), Set(DestD, MPlusOne), AtSym("SP"), Set(DestM, RegD)]
  }

  /** R13 := return address; RAM[ARG] := result; SP := ARG + 1. */
  function ReturnHead(): seq<Instr> {
    SaveReturnCode() + ResultCode() + SpCode()
  }

  /** The last two lines of `writeReturn`, as written: `@R13`, `A=M;JMP`. */
  function ReturnJump(): seq<Instr> {
    [AtSym("R13"), Compute(DestA, RegM, JMP)]
  }

  function ReturnCode(): seq<Instr> {
    ReturnHead() + RestoreAll(RestoreOrder) + ReturnJump()
  }

  /**
   * The jump `return` is meant to make: load the saved address into A
   * first, and only then jump (`@R13`, `A=M`, `0;JMP`).
   */
  function FixedReturnJump(): seq<Instr> {
    [AtSym("R13"), Set(DestA, RegM), Goto(Zero, JMP)]
  }

  /** `return` with the corrected jump. */
  function FixedReturnCode(): seq<Instr> {
    ReturnHead() + RestoreAll(RestoreOrder) + FixedReturnJump()
  }

  function LoopLabel(f: string): string { f + "-INITLOOP" }

  function LoopEndLabel(f: string): string { f + "-INITLOOP-END" }

  /** (f), then R13 := 0: R13 counts the locals pushed so far. */
  function FunctionEntry(f: string): seq<Instr> {
    [Declare(f), AtSym("R13"), Set(DestM, Zero)]
  }

  /** (f-INITLOOP): leave the loop for f-INITLOOP-END once R13 == n. */
  function LoopTest(f: string, n: nat): seq<Instr> {
    [ Declare(LoopLabel(f)),
      AtSym("R13"), Set(DestD, RegM), AtNum(n), Set(DestD, DMinusA),
      AtSym(LoopEndLabel(f)), Goto(RegD, JEQ) ]
  }

  /** Push 0. */
  function LoopPush(): seq<Instr> {
    [AtSym("SP"), Set(DestA, RegM), Set(DestM, Zero), AtSym("SP"), Set(DestM, MPlusOne)]
  }

  /** R13 := R13 + 1, back to f-INITLOOP. */
  function LoopNext(f: string): seq<Instr> {
    [AtSym("R13"), Set(DestM, MPlusOne), AtSym(LoopLabel(f)), Goto(Zero, JMP)]
  }

  /** Push 0, R13 := R13 + 1, back to f-INITLOOP. */
  function LoopBody(f: string): seq<Instr> {
    LoopPush() + LoopNext(f)
  }

  /** `writeFunction(f, n)`: declare f, then push n zeros, counting in R13. */
  function FunctionCode(f: string, n: nat): seq<Instr> {
    FunctionEntry(f) + LoopTest(f, n) + LoopBody(f) + [Declare(LoopEndLabel(f))]
  }

  /** `writeInit` with the call counter at k: SP := 256, then call Sys.init. */
  function InitCode(k: nat): seq<Instr> {
    [AtNum(256), Set(DestD, RegA), AtSym("SP"), Set(DestM, RegD)] + CallCode("Sys.init", 0, k)
  }
}
