/**
 * The full VM translator (vm_translator.cpp): its CodeWriter, which turns
 * each VM command into Hack assembly text on an output stream, and the
 * driver loop of `main`, which writes the bootstrap and then translates
 * every ".vm" file of a directory into one ".asm" file.
 *
 * The output stream is the sequence of lines written so far. Each write
 * method emits the same text as the source, line by line, and its
 * contract says that text is the rendering of the instruction template of
 * module VmCode, whose effect on the machine module VmStackEffects states.
 */
module VmTranslator {
  import opened Text
  import opened Hack
  import opened VmCode
  import opened VmParser
  import opened VmText

  /** `CodeWriter(path)`: the output file is path/NAME.asm, NAME the last component of path. */
  function OutputPath(dir: string): (out: string)
    ensures EndsWith(out, ".asm")
    ensures dir + "/" <= out
  {
    var r := dir + "/" + BaseName(dir) + ".asm";
    assert r[|r| - 4..] == ".asm";
    assert r[..|dir| + 1] == dir + "/";
    r
  }

  class CodeWriter {
    /** The file the assembly goes to, and the lines written to it so far. */
    var outPath: string
    var out: seq<string>
    /** The module name of the file being translated, for static symbols. */
    var filename: string
    /** The function being translated, for the labels of label, goto and if-goto. */
    var functionName: string
    /** The counters that number comparison labels and return addresses. */
    var labelCnt: nat
    var callCnt: nat

    constructor (path: string)
      ensures outPath == OutputPath(path) && out == []
      ensures filename == "" && functionName == "" && labelCnt == 0 && callCnt == 0
    {
      outPath := OutputPath(path);
      out := [];
      filename := "";
      functionName := "";
      labelCnt := 0;
      callCnt := 0;
    }

    /**
     * `setFileName`: the base name of path without its last three
     * characters; `substr` keeps a shorter base name whole.
     */
    method SetFileName(path: string)
      modifies this`filename
      ensures filename == ModuleName(path)
    {
      var i: int := match LastIndex(path, c => c == '/') case None => -1 case Some(k) => k;
      var len := |path| - i - 4;
      if len >= 0 {
        filename := path[i + 1..i + 1 + len];
      } else {
        filename := path[i + 1..];
      }
    }

    /** `writeInit`: SP := 256, then `call Sys.init 0`. */
    method WriteInit()
      modifies this`out, this`callCnt
      ensures out == old(out) + Lines(InitCode(old(callCnt)))
      ensures callCnt == old(callCnt) + 1
    {
      EmitInitHead();
      WriteCall("Sys.init", 0);
      InitLines(old(out), old(callCnt));
    }

    method EmitInitHead()
      modifies this`out
      ensures out == old(out) + Lines([AtNum(256), Set(DestD, RegA), AtSym("SP"), Set(DestM, RegD)])
    {
      InitHeadText();
      out := out + ["@256", "D=A", "@SP", "M=D"];
    }

    /**
     * `writeArithmetic`: not and neg rewrite the top in place; add, sub,
     * or and and pop once and combine; anything else is a comparison
     * numbered by labelCnt, which it then increments.
     */
    method WriteArithmetic(command: string)
      modifies this`out, this`labelCnt
      ensures out == old(out) + Lines(ArithmeticCode(Full, command, old(labelCnt)))
      ensures labelCnt == old(labelCnt) + (if IsComparison(command) then 1 else 0)
    {
      var n := labelCnt;
      if command == "not" {
        NotText(Full, n);
        out := out + ["@SP", "A=M-1", "M=!M"];
        return;
      } else if command == "neg" {
        NegText(Full, n);
        out := out + ["@SP", "A=M-1", "M=-M"];
        return;
      }
      EmitOperands();
      if command == "add" || command == "sub" || command == "or" || command == "and" {
        EmitBinary(command);
        BinaryLines(old(out), Full, command, n);
      } else {
        EmitCompareTest(command, n);
        EmitFalseBranch(n);
        EmitTrueBranch(n);
        labelCnt := labelCnt + 1;
        CompareLines(old(out), Full, command, n);
      }
    }

    /** Pop y into D and point A at x. */
    method EmitOperands()
      modifies this`out
      ensures out == old(out) + Lines(OperandsCode(Full))
    {
      OperandsFullText();
      out := out + ["@SP", "AM=M-1", "D=M", "@SP", "A=M-1"];
    }

    /** Combine x and y in place for add, sub, or and and. */
    method EmitBinary(command: string)
      requires command == "add" || command == "sub" || command == "or" || command == "and"
      modifies this`out
      ensures out == old(out) + Lines([Set(DestM, BinaryComp(command))])
    {
      BinaryText(command);
      if command == "add" {
        out := out + ["M=M+D"];
      } else if command == "sub" {
        out := out + ["M=M-D"];
      } else if command == "or" {
        out := out + ["M=M|D"];
      } else {
        out := out + ["M=M&D"];
      }
    }

    /** D := x - y and jump to TRUEn when the comparison holds. */
    method EmitCompareTest(command: string, n: nat)
      modifies this`out
      ensures out == old(out) + Lines(CompareTest(command, n))
    {
      CompareTestText(command, n);
      out := out + ["D=M-D", "@TRUE" + NatStr(n)];
      if command == "eq" {
        out := out + ["D;JEQ"];
      } else if command == "gt" {
        out := out + ["D;JGT"];
      } else {
        out := out + ["D;JLT"];
      }
    }

    method EmitFalseBranch(n: nat)
      modifies this`out
      ensures out == old(out) + Lines(FalseBranch(n))
    {
      FalseBranchText(n);
      out := out + ["@SP", "A=M-1", "M=0", "@END" + NatStr(n), "0;JMP"];
    }

    method EmitTrueBranch(n: nat)
      modifies this`out
      ensures out == old(out) + Lines(TrueBranch(n))
    {
      TrueBranchText(n);
      out := out + ["(TRUE" + NatStr(n) + ")", "@SP", "A=M-1", "M=-1", "(END" + NatStr(n) + ")"];
    }

    /**
     * `writePushPop`: push reads the value (the index itself for
     * constant) into D and pushes it; pop keeps the target address in
     * R13, pops into D and stores it there.
     */
    method WritePushPop(command: CommandType, segment: string, index: nat)
      modifies this`out
      ensures out == old(out) + Lines(
        if command == Push then PushCode(Full, filename, segment, index) else PopCode(Full, filename, segment, index))
    {
      if command == Push {
        if segment == "constant" {
          EmitConstant(index);
          EmitPushTail();
          PushConstantLines(old(out), Full, filename, index);
        } else {
          GetAddress(segment, index);
          EmitRead();
          EmitPushTail();
          PushSegmentLines(old(out), Full, filename, segment, index);
        }
      } else {
        GetAddress(segment, index);
        EmitPopSave();
        EmitPopLoad();
        EmitPopStore();
        PopLines(old(out), Full, filename, segment, index);
      }
    }

    /** Read the value of push constant: the index itself. */
    method EmitConstant(index: nat)
      modifies this`out
      ensures out == old(out) + Lines([AtNum(index), Set(DestD, RegA)])
    {
      ConstantReadText(index);
      out := out + ["@" + NatStr(index), "D=A"];
    }

    /** Read the value of push from the address in A. */
    method EmitRead()
      modifies this`out
      ensures out == old(out) + Lines([Set(DestD, RegM)])
    {
      ReadText();
      out := out + ["D=M"];
    }

    /** Write D to the stack, then increment SP. */
    method EmitPushTail()
      modifies this`out
      ensures out == old(out) + Lines([AtSym("SP"), Set(DestA, RegM), Set(DestM, RegD), AtSym("SP"), Set(DestM, MPlusOne)])
    {
      PushTailText();
      out := out + ["@SP", "A=M", "M=D"];
      out := out + ["@SP", "M=M+1"];
    }

    /** Keep the target address in R13. */
    method EmitPopSave()
      modifies this`out
      ensures out == old(out) + Lines([Set(DestD, RegA), AtSym(Scratch(Full)), Set(DestM, RegD)])
    {
      PopSaveFullText();
      out := out + ["D=A", "@R13", "M=D"];
    }

    /** Decrement SP and read from the stack. */
    method EmitPopLoad()
      modifies this`out
      ensures out == old(out) + Lines(PopTop(Full) + [Set(DestD, RegM)])
    {
      PopLoadFullText();
      out := out + ["@SP", "AM=M-1", "D=M"];
    }

    /** Write D to the address kept in R13. */
    method EmitPopStore()
      modifies this`out
      ensures out == old(out) + Lines([AtSym(Scratch(Full)), Set(DestA, RegM), Set(DestM, RegD)])
    {
      PopStoreFullText();
      out := out + ["@R13", "A=M", "M=D"];
    }

    /** `writeLabel`: declares `functionName$label`. */
    method WriteLabel(name: string)
      modifies this`out
      ensures out == old(out) + Lines(LabelCode(functionName, name))
    {
      LabelText(functionName, name);
      out := out + ["(" + functionName + "$" + name + ")"];
    }

    /** `writeGoto`: jumps to `functionName$label`. */
    method WriteGoto(name: string)
      modifies this`out
      ensures out == old(out) + Lines(GotoCode(functionName, name))
    {
      GotoText(functionName, name);
      out := out + ["@" + functionName + "$" + name, "0;JMP"];
    }

    /** `writeIf`: pops, and jumps to `functionName$label` when the value is not 0. */
    method WriteIf(name: string)
      modifies this`out
      ensures out == old(out) + Lines(IfCode(functionName, name))
    {
      IfText(functionName, name);
      out := out + ["@SP", "AM=M-1", "D=M", "@" + functionName + "$" + name, "D;JNE"];
    }

    /**
     * `writeCall(f, numArgs)`: pushes RETURNk and the caller's LCL, ARG,
     * THIS and THAT, repositions ARG and LCL, jumps to f and declares
     * RETURNk, k being callCnt, which it then increments.
     */
    method WriteCall(f: string, numArgs: nat)
      modifies this`out, this`callCnt
      ensures out == old(out) + Lines(CallCode(f, numArgs, old(callCnt)))
      ensures callCnt == old(callCnt) + 1
    {
      var k := callCnt;
      EmitCallHead(k);
      EmitSaveAll(FrameRegisters);
      EmitArg(numArgs);
      EmitLcl();
      EmitJump(f);
      EmitReturnDeclare(k);
      CallLines(old(out), f, numArgs, k);
      callCnt := callCnt + 1;
    }

    /** Push the return address RETURNk. */
    method EmitCallHead(k: nat)
      modifies this`out
      ensures out == old(out) + Lines(CallHead(k))
    {
      CallHeadText(k);
      out := out + ["@RETURN" + NatStr(k), "D=A", "@SP", "M=M+1", "A=M-1", "M=D"];
    }

    /** The loop of `writeCall`: push the value of each register in turn. */
    method EmitSaveAll(labels: seq<string>)
      modifies this`out
      ensures out == old(out) + Lines(SaveAll(labels))
    {
      var j := 0;
      while j < |labels|
        invariant 0 <= j <= |labels|
        invariant out == old(out) + Lines(SaveAll(labels[..j]))
      {
        var reg := labels[j];
        EmitSave(reg);
        SaveStepLines(old(out), labels[..j], reg);
        assert labels[..j + 1] == labels[..j] + [reg];
        j := j + 1;
      }
      assert labels[..j] == labels;
    }

    /** Push the value of one pointer register. */
    method EmitSave(reg: string)
      modifies this`out
      ensures out == old(out) + Lines(SaveCode(reg))
    {
      SaveText(reg);
      out := out + ["@" + reg, "D=M", "@SP", "M=M+1", "A=M-1", "M=D"];
    }

    /** ARG := SP - numArgs - 5. */
    method EmitArg(numArgs: nat)
      modifies this`out
      ensures out == old(out) + Lines(ArgCode(numArgs))
    {
      ArgText(numArgs);
      out := out + ["@" + NatStr(numArgs + 5), "D=A", "@SP", "D=M-D", "@ARG", "M=D"];
    }

    /** LCL := SP. */
    method EmitLcl()
      modifies this`out
      ensures out == old(out) + Lines(LclCode())
    {
      LclText();
      out := out + ["@SP", "D=M", "@LCL", "M=D"];
    }

    /** Goto f. */
    method EmitJump(f: string)
      modifies this`out
      ensures out == old(out) + Lines([AtSym(f), VmCode.Goto(Zero, JMP)])
    {
      JumpToText(f);
      out := out + ["@" + f, "0;JMP"];
    }

    /** Declare the return address RETURNk. */
    method EmitReturnDeclare(k: nat)
      modifies this`out
      ensures out == old(out) + Lines([Declare(ReturnLabel(k))])
    {
      ReturnDeclareText(k);
      out := out + ["(RETURN" + NatStr(k) + ")"];
    }

    /**
     * `writeReturn`: saves the return address in R13, moves the result to
     * ARG[0], resets SP, restores THAT, THIS, ARG and LCL from the frame
     * and jumps to the saved address.
     */
    method WriteReturn()
      modifies this`out
      ensures out == old(out) + Lines(ReturnCode())
    {
      EmitReturnHead();
      EmitRestoreAll(RestoreOrder);
      EmitReturnJump();
      ReturnLines(old(out));
    }

    /** R13 := the return address, RAM[ARG] := the result, SP := ARG + 1. */
    method EmitReturnHead()
      modifies this`out
      ensures out == old(out) + Lines(ReturnHead())
    {
      EmitSaveReturn();
      EmitResult();
      EmitSp();
      ReturnHeadLines(old(out));
    }

    /** R13 := RAM[LCL - 5]. */
    method EmitSaveReturn()
      modifies this`out
      ensures out == old(out) + Lines(SaveReturnCode())
    {
      SaveReturnText();
      out := out + ["@5", "D=A", "@LCL", "A=M-D", "D=M", "@R13", "M=D"];
    }

    /** RAM[ARG] := the top of the stack. */
    method EmitResult()
      modifies this`out
      ensures out == old(out) + Lines(ResultCode())
    {
      ResultText();
      out := out + ["@SP", "A=M-1", "D=M", "@ARG", "A=M", "M=D"];
    }

    /** SP := ARG + 1. */
    method EmitSp()
      modifies this`out
      ensures out == old(out) + Lines(SpCode())
    {
      SpText();
      out := out + ["@ARG", "D=M+1", "@SP", "M=D"];
    }

    /** The loop of `writeReturn`: restore each register in turn. */
    method EmitRestoreAll(labels: seq<string>)
      modifies this`out
      ensures out == old(out) + Lines(RestoreAll(labels))
    {
      var j := 0;
      while j < |labels|
        invariant 0 <= j <= |labels|
        invariant out == old(out) + Lines(RestoreAll(labels[..j]))
      {
        var reg := labels[j];
        EmitRestore(reg);
        RestoreStepLines(old(out), labels[..j], reg);
        assert labels[..j + 1] == labels[..j] + [reg];
        j := j + 1;
      }
      assert labels[..j] == labels;
    }

    /** Restore one pointer register from the frame below LCL. */
    method EmitRestore(reg: string)
      modifies this`out
      ensures out == old(out) + Lines(RestoreCode(reg))
    {
      RestoreText(reg);
      out := out + ["@LCL", "AM=M-1", "D=M", "@" + reg, "M=D"];
    }

    /** Jump to the address kept in R13. */
    method EmitReturnJump()
      modifies this`out
      ensures out == old(out) + Lines(ReturnJump())
    {
      ReturnJumpText();
      out := out + ["@R13", "A=M;JMP"];
    }

    /**
     * `writeFunction(f, numLocals)`: makes f the current function,
     * declares it and pushes numLocals zeros, counting in R13.
     */
    method WriteFunction(f: string, numLocals: nat)
      modifies this`out, this`functionName
      ensures out == old(out) + Lines(FunctionCode(f, numLocals))
      ensures functionName == f
    {
      functionName := f;
      EmitFunctionEntry(f);
      EmitLoopTest(f, numLocals);
      EmitLoopPush();
      EmitLoopNext(f);
      EmitLoopEnd(f);
      FunctionLines(old(out), f, numLocals);
    }

    /** (f), then R13 := 0. */
    method EmitFunctionEntry(f: string)
      modifies this`out
      ensures out == old(out) + Lines(FunctionEntry(f))
    {
      FunctionEntryText(f);
      out := out + ["(" + f + ")"];
      out := out + ["@R13", "M=0"];
    }

    /** (f-INITLOOP), and the exit to f-INITLOOP-END once R13 == numLocals. */
    method EmitLoopTest(f: string, numLocals: nat)
      modifies this`out
      ensures out == old(out) + Lines(LoopTest(f, numLocals))
    {
      LoopTestText(f, numLocals);
      out := out + ["(" + f + "-INITLOOP)", "@R13", "D=M", "@" + NatStr(numLocals), "D=D-A", "@" + f + "-INITLOOP-END", "D;JEQ"];
    }

    /** Push 0. */
    method EmitLoopPush()
      modifies this`out
      ensures out == old(out) + Lines(LoopPush())
    {
      LoopPushText();
      out := out + ["@SP", "A=M", "M=0", "@SP", "M=M+1"];
    }

    /** R13 := R13 + 1, back to f-INITLOOP. */
    method EmitLoopNext(f: string)
      modifies this`out
      ensures out == old(out) + Lines(LoopNext(f))
    {
      LoopNextText(f);
      out := out + ["@R13", "M=M+1"];
      out := out + ["@" + f + "-INITLOOP", "0;JMP"];
    }

    /** (f-INITLOOP-END). */
    method EmitLoopEnd(f: string)
      modifies this`out
      ensures out == old(out) + Lines([Declare(LoopEndLabel(f))])
    {
      LoopEndText(f);
      out := out + ["(" + f + "-INITLOOP-END)"];
    }

    /** `getAddress`: leaves the address of `segment index` in A. */
    method GetAddress(segment: string, index: nat)
      modifies this`out
      ensures out == old(out) + Lines(AddressCode(Full, filename, segment, index))
    {
      if segment == "argument" {
        ArgumentAddressText(Full, filename, index);
        out := out + ["@" + NatStr(index), "D=A", "@ARG", "A=D+M"];
      } else if segment == "local" {
        LocalAddressText(Full, filename, index);
        out := out + ["@" + NatStr(index), "D=A", "@LCL", "A=D+M"];
      } else if segment == "static" {
        StaticFullText(filename, index);
        out := out + ["@" + filename + "." + NatStr(index)];
      } else if segment == "this" {
        ThisAddressText(Full, filename, index);
        out := out + ["@" + NatStr(index), "D=A", "@THIS", "A=D+M"];
      } else if segment == "that" {
        ThatAddressText(Full, filename, index);
        out := out + ["@" + NatStr(index), "D=A", "@THAT", "A=D+M"];
      } else if segment == "pointer" {
        PointerText(Full, filename, index);
        out := out + ["@R" + NatStr(3 + index)];
      } else if segment == "temp" {
        TempText(Full, filename, index);
        out := out + ["@R" + NatStr(5 + index)];
      } else {
        OtherAddressText(Full, filename, segment, index);
      }
    }
  }
}
