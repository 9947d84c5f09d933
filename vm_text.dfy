/**
 * The text of each template: the lines the code writers of
 * vm_translator.cpp and 07/vm_translator.cpp print, as the rendering of
 * the instructions of module VmCode.
 */
module VmText {
  import opened Text
  import opened Hack
  import opened VmCode

  /** not: `@SP`, `A=M-1`, `M=!M`. */
  lemma NotText(dialect: Dialect, n: nat)
    ensures Lines(ArithmeticCode(dialect, "not", n)) == ["@SP", "A=M-1", "M=!M"]
  {
    var p := [AtSym("SP"), Set(DestA, MMinusOne), Set(DestM, NotM)];
    assert ArithmeticCode(dialect, "not", n) == p;
    assert Render(p[0]) == "@SP";
    assert Render(p[1]) == "A=M-1";
    assert Render(p[2]) == "M=!M";
  }

  /** neg: `@SP`, `A=M-1`, `M=-M`. */
  lemma NegText(dialect: Dialect, n: nat)
    ensures Lines(ArithmeticCode(dialect, "neg", n)) == ["@SP", "A=M-1", "M=-M"]
  {
    var p := [AtSym("SP"), Set(DestA, MMinusOne), Set(DestM, NegM)];
    assert ArithmeticCode(dialect, "neg", n) == p;
    assert Render(p[0]) == "@SP";
    assert Render(p[1]) == "A=M-1";
    assert Render(p[2]) == "M=-M";
  }

  lemma OperandsFullText0()
    ensures Lines([AtSym("SP"), Set(DestAM, MMinusOne), Set(DestD, RegM)]) == ["@SP", "AM=M-1", "D=M"]
  {
    var p := [AtSym("SP"), Set(DestAM, MMinusOne), Set(DestD, RegM)];
    assert Render(p[0]) == "@SP";
    assert Render(p[1]) == "AM=M-1";
    assert Render(p[2]) == "D=M";
  }

  lemma OperandsFullText1()
    ensures Lines([AtSym("SP"), Set(DestA, MMinusOne)]) == ["@SP", "A=M-1"]
  {
    var p := [AtSym("SP"), Set(DestA, MMinusOne)];
    assert Render(p[0]) == "@SP";
    assert Render(p[1]) == "A=M-1";
  }

  /** The operand fetch of the full translator. */
  lemma OperandsFullText()
    ensures Lines(OperandsCode(Full)) == ["@SP", "AM=M-1", "D=M", "@SP", "A=M-1"]
  {
    var p0 := [AtSym("SP"), Set(DestAM, MMinusOne), Set(DestD, RegM)];
    var p1 := [AtSym("SP"), Set(DestA, MMinusOne)];
    assert Lines(p0 + p1) == ["@SP", "AM=M-1", "D=M", "@SP", "A=M-1"] by {
      OperandsFullText0();
      OperandsFullText1();
      LinesAppend(p0, p1);
    }
    assert OperandsCode(Full) == (p0 + p1);
  }

  lemma OperandsEarlyText0()
    ensures Lines([AtSym("SP"), Set(DestM, MMinusOne), Set(DestA, RegM)]) == ["@SP", "M=M-1", "A=M"]
  {
    var p := [AtSym("SP"), Set(DestM, MMinusOne), Set(DestA, RegM)];
    assert Render(p[0]) == "@SP";
    assert Render(p[1]) == "M=M-1";
    assert Render(p[2]) == "A=M";
  }

  lemma OperandsEarlyText1()
    ensures Lines([Set(DestD, RegM), AtSym("SP"), Set(DestA, MMinusOne)]) == ["D=M", "@SP", "A=M-1"]
  {
    var p := [Set(DestD, RegM), AtSym("SP"), Set(DestA, MMinusOne)];
    assert Render(p[0]) == "D=M";
    assert Render(p[1]) == "@SP";
    assert Render(p[2]) == "A=M-1";
  }

  /** The operand fetch of the early translator. */
  lemma OperandsEarlyText()
    ensures Lines(OperandsCode(Early)) == ["@SP", "M=M-1", "A=M", "D=M", "@SP", "A=M-1"]
  {
    var p0 := [AtSym("SP"), Set(DestM, MMinusOne), Set(DestA, RegM)];
    var p1 := [Set(DestD, RegM), AtSym("SP"), Set(DestA, MMinusOne)];
    assert Lines(p0 + p1) == ["@SP", "M=M-1", "A=M", "D=M", "@SP", "A=M-1"] by {
      OperandsEarlyText0();
      OperandsEarlyText1();
      LinesAppend(p0, p1);
    }
    assert OperandsCode(Early) == (p0 + p1);
  }

  /** The line that combines the operands of add, sub, or and and. */
  function BinaryLine(op: string): string {
    if op == "add" then "M=M+D" else if op == "sub" then "M=M-D" else if op == "or" then "M=M|D" else "M=M&D"
  }

  lemma BinaryText(op: string)
    requires !IsUnary(op) && !IsComparison(op)
    ensures Lines([Set(DestM, BinaryComp(op))]) == [BinaryLine(op)]
  {
    var p := [Set(DestM, BinaryComp(op))];
    assert Render(p[0]) == BinaryLine(op);
  }

  /** The jump line of a comparison: eq, gt and everything else (lt). */
  function JumpLine(op: string): string {
    if op == "eq" then "D;JEQ" else if op == "gt" then "D;JGT" else "D;JLT"
  }

  lemma CompareTestText(op: string, n: nat)
    ensures Lines(CompareTest(op, n)) == ["D=M-D", "@TRUE" + NatStr(n), JumpLine(op)]
  {
    var p := [Set(DestD, MMinusD), AtSym(TrueLabel(n)), Goto(RegD, CompareJump(op))];
    LinesOf3(p);
    assert CompareTest(op, n) == p;
    assert Render(p[0]) == "D=M-D";
    assert Render(p[1]) == "@TRUE" + NatStr(n);
    assert Render(p[2]) == JumpLine(op);
  }

  lemma FalseBranchText0(n: nat)
    ensures Lines([AtSym("SP"), Set(DestA, MMinusOne), Set(DestM, Zero)]) == ["@SP", "A=M-1", "M=0"]
  {
    var p := [AtSym("SP"), Set(DestA, MMinusOne), Set(DestM, Zero)];
    assert Render(p[0]) == "@SP";
    assert Render(p[1]) == "A=M-1";
    assert Render(p[2]) == "M=0";
  }

  lemma FalseBranchText1(n: nat)
    ensures Lines([AtSym(EndLabel(n)), Goto(Zero, JMP)]) == ["@END" + NatStr(n), "0;JMP"]
  {
    var p := [AtSym(EndLabel(n)), Goto(Zero, JMP)];
    assert Render(p[0]) == "@" + ("END" + NatStr(n));
    assert "@" + ("END" + NatStr(n)) == "@END" + NatStr(n);
    assert Render(p[1]) == "0;JMP";
  }

  /** Writes false and jumps to ENDn. */
  lemma FalseBranchText(n: nat)
    ensures Lines(FalseBranch(n)) == ["@SP", "A=M-1", "M=0", "@END" + NatStr(n), "0;JMP"]
  {
    var p0 := [AtSym("SP"), Set(DestA, MMinusOne), Set(DestM, Zero)];
    var p1 := [AtSym(EndLabel(n)), Goto(Zero, JMP)];
    assert Lines(p0 + p1) == ["@SP", "A=M-1", "M=0", "@END" + NatStr(n), "0;JMP"] by {
      FalseBranchText0(n);
      FalseBranchText1(n);
      LinesAppend(p0, p1);
    }
    assert FalseBranch(n) == (p0 + p1);
  }

  lemma TrueBranchText0(n: nat)
    ensures Lines([Declare(TrueLabel(n)), AtSym("SP"), Set(DestA, MMinusOne)]) == ["(TRUE" + NatStr(n) + ")", "@SP", "A=M-1"]
  {
    var p := [Declare(TrueLabel(n)), AtSym("SP"), Set(DestA, MMinusOne)];
    LinesOf3(p);
    assert Render(p[0]) == "(" + ("TRUE" + NatStr(n)) + ")";
    assert "(" + ("TRUE" + NatStr(n)) + ")" == "(TRUE" + NatStr(n) + ")";
    assert Render(p[1]) == "@SP";
    assert Render(p[2]) == "A=M-1";
  }

  lemma TrueBranchText1(n: nat)
    ensures Lines([Set(DestM, MinusOne), Declare(EndLabel(n))]) == ["M=-1", "(END" + NatStr(n) + ")"]
  {
    var p := [Set(DestM, MinusOne), Declare(EndLabel(n))];
    assert Render(p[0]) == "M=-1";
    assert Render(p[1]) == "(" + ("END" + NatStr(n)) + ")";
    assert "(" + ("END" + NatStr(n)) + ")" == "(END" + NatStr(n) + ")";
  }

  /** (TRUEn) writes true; (ENDn). */
  lemma TrueBranchText(n: nat)
    ensures Lines(TrueBranch(n)) == ["(TRUE" + NatStr(n) + ")", "@SP", "A=M-1", "M=-1", "(END" + NatStr(n) + ")"]
  {
    var p0 := [Declare(TrueLabel(n)), AtSym("SP"), Set(DestA, MMinusOne)];
    var p1 := [Set(DestM, MinusOne), Declare(EndLabel(n))];
    assert Lines(p0 + p1) == ["(TRUE" + NatStr(n) + ")", "@SP", "A=M-1", "M=-1", "(END" + NatStr(n) + ")"] by {
      TrueBranchText0(n);
      TrueBranchText1(n);
      LinesAppend(p0, p1);
    }
    assert TrueBranch(n) == (p0 + p1);
  }

  lemma ArgumentAddressText0(dialect: Dialect, filename: string, i: nat)
    ensures Lines([AtNum(i), Set(DestD, RegA), AtSym("ARG")]) == ["@" + NatStr(i), "D=A", "@ARG"]
  {
    var p := [AtNum(i), Set(DestD, RegA), AtSym("ARG")];
    LinesOf3(p);
    assert Render(p[0]) == "@" + NatStr(i);
    assert Render(p[1]) == "D=A";
    assert Render(p[2]) == "@ARG";
  }

  lemma ArgumentAddressText1(dialect: Dialect, filename: string, i: nat)
    ensures Lines([Set(DestA, DPlusM)]) == ["A=D+M"]
  {
    var p := [Set(DestA, DPlusM)];
    assert Render(p[0]) == "A=D+M";
  }

  /** argument i: index plus ARG. */
  lemma ArgumentAddressText(dialect: Dialect, filename: string, i: nat)
    ensures Lines(AddressCode(dialect, filename, "argument", i)) == ["@" + NatStr(i), "D=A", "@ARG", "A=D+M"]
  {
    var p0 := [AtNum(i), Set(DestD, RegA), AtSym("ARG")];
    var p1 := [Set(DestA, DPlusM)];
    assert Lines(p0 + p1) == ["@" + NatStr(i), "D=A", "@ARG", "A=D+M"] by {
      ArgumentAddressText0(dialect, filename, i);
      ArgumentAddressText1(dialect, filename, i);
      LinesAppend(p0, p1);
    }
    assert AddressCode(dialect, filename, "argument", i) == (p0 + p1);
  }

  lemma LocalAddressText0(dialect: Dialect, filename: string, i: nat)
    ensures Lines([AtNum(i), Set(DestD, RegA), AtSym("LCL")]) == ["@" + NatStr(i), "D=A", "@LCL"]
  {
    var p := [AtNum(i), Set(DestD, RegA), AtSym("LCL")];
    LinesOf3(p);
    assert Render(p[0]) == "@" + NatStr(i);
    assert Render(p[1]) == "D=A";
    assert Render(p[2]) == "@LCL";
  }

  lemma LocalAddressText1(dialect: Dialect, filename: string, i: nat)
    ensures Lines([Set(DestA, DPlusM)]) == ["A=D+M"]
  {
    var p := [Set(DestA, DPlusM)];
    assert Render(p[0]) == "A=D+M";
  }

  /** local i: index plus LCL. */
  lemma LocalAddressText(dialect: Dialect, filename: string, i: nat)
    ensures Lines(AddressCode(dialect, filename, "local", i)) == ["@" + NatStr(i), "D=A", "@LCL", "A=D+M"]
  {
    var p0 := [AtNum(i), Set(DestD, RegA), AtSym("LCL")];
    var p1 := [Set(DestA, DPlusM)];
    assert Lines(p0 + p1) == ["@" + NatStr(i), "D=A", "@LCL", "A=D+M"] by {
      LocalAddressText0(dialect, filename, i);
      LocalAddressText1(dialect, filename, i);
      LinesAppend(p0, p1);
    }
    assert AddressCode(dialect, filename, "local", i) == (p0 + p1);
  }

  lemma ThisAddressText0(dialect: Dialect, filename: string, i: nat)
    ensures Lines([AtNum(i), Set(DestD, RegA), AtSym("THIS")]) == ["@" + NatStr(i), "D=A", "@THIS"]
  {
    var p := [AtNum(i), Set(DestD, RegA), AtSym("THIS")];
    LinesOf3(p);
    assert Render(p[0]) == "@" + NatStr(i);
    assert Render(p[1]) == "D=A";
    assert Render(p[2]) == "@THIS";
  }

  lemma ThisAddressText1(dialect: Dialect, filename: string, i: nat)
    ensures Lines([Set(DestA, DPlusM)]) == ["A=D+M"]
  {
    var p := [Set(DestA, DPlusM)];
    assert Render(p[0]) == "A=D+M";
  }

  /** this i: index plus THIS. */
  lemma ThisAddressText(dialect: Dialect, filename: string, i: nat)
    ensures Lines(AddressCode(dialect, filename, "this", i)) == ["@" + NatStr(i), "D=A", "@THIS", "A=D+M"]
  {
    var p0 := [AtNum(i), Set(DestD, RegA), AtSym("THIS")];
    var p1 := [Set(DestA, DPlusM)];
    assert Lines(p0 + p1) == ["@" + NatStr(i), "D=A", "@THIS", "A=D+M"] by {
      ThisAddressText0(dialect, filename, i);
      ThisAddressText1(dialect, filename, i);
      LinesAppend(p0, p1);
    }
    assert AddressCode(dialect, filename, "this", i) == (p0 + p1);
  }

  lemma ThatAddressText0(dialect: Dialect, filename: string, i: nat)
    ensures Lines([AtNum(i), Set(DestD, RegA), AtSym("THAT")]) == ["@" + NatStr(i), "D=A", "@THAT"]
  {
    var p := [AtNum(i), Set(DestD, RegA), AtSym("THAT")];
    LinesOf3(p);
    assert Render(p[0]) == "@" + NatStr(i);
    assert Render(p[1]) == "D=A";
    assert Render(p[2]) == "@THAT";
  }

  lemma ThatAddressText1(dialect: Dialect, filename: string, i: nat)
    ensures Lines([Set(DestA, DPlusM)]) == ["A=D+M"]
  {
    var p := [Set(DestA, DPlusM)];
    assert Render(p[0]) == "A=D+M";
  }

  /** that i: index plus THAT. */
  lemma ThatAddressText(dialect: Dialect, filename: string, i: nat)
    ensures Lines(AddressCode(dialect, filename, "that", i)) == ["@" + NatStr(i), "D=A", "@THAT", "A=D+M"]
  {
    var p0 := [AtNum(i), Set(DestD, RegA), AtSym("THAT")];
    var p1 := [Set(DestA, DPlusM)];
    assert Lines(p0 + p1) == ["@" + NatStr(i), "D=A", "@THAT", "A=D+M"] by {
      ThatAddressText0(dialect, filename, i);
      ThatAddressText1(dialect, filename, i);
      LinesAppend(p0, p1);
    }
    assert AddressCode(dialect, filename, "that", i) == (p0 + p1);
  }

  /** static i in the full translator: `@filename.i`. */
  lemma StaticFullText(filename: string, i: nat)
    ensures Lines(AddressCode(Full, filename, "static", i)) == ["@" + filename + "." + NatStr(i)]
  {
    var p := [AtSym(StaticSymbol(Full, filename, i))];
    assert AddressCode(Full, filename, "static", i) == p;
    assert Render(p[0]) == "@" + (filename + "." + NatStr(i));
    assert "@" + (filename + "." + NatStr(i)) == "@" + filename + "." + NatStr(i);
  }

  /** static i in the early translator: `@filenamei`. */
  lemma StaticEarlyText(filename: string, i: nat)
    ensures Lines(AddressCode(Early, filename, "static", i)) == ["@" + filename + NatStr(i)]
  {
    var p := [AtSym(StaticSymbol(Early, filename, i))];
    assert AddressCode(Early, filename, "static", i) == p;
    assert Render(p[0]) == "@" + (filename + NatStr(i));
    assert "@" + (filename + NatStr(i)) == "@" + filename + NatStr(i);
  }

  /** pointer i: `@R(3+i)`. */
  lemma PointerText(dialect: Dialect, filename: string, i: nat)
    ensures Lines(AddressCode(dialect, filename, "pointer", i)) == ["@R" + NatStr(3 + i)]
  {
    var p := [AtSym("R" + NatStr(3 + i))];
    assert AddressCode(dialect, filename, "pointer", i) == p;
    assert Render(p[0]) == "@" + ("R" + NatStr(3 + i));
    assert "@" + ("R" + NatStr(3 + i)) == "@R" + NatStr(3 + i);
  }

  /** temp i: `@R(5+i)`. */
  lemma TempText(dialect: Dialect, filename: string, i: nat)
    ensures Lines(AddressCode(dialect, filename, "temp", i)) == ["@R" + NatStr(5 + i)]
  {
    var p := [AtSym("R" + NatStr(5 + i))];
    assert AddressCode(dialect, filename, "temp", i) == p;
    assert Render(p[0]) == "@" + ("R" + NatStr(5 + i));
    assert "@" + ("R" + NatStr(5 + i)) == "@R" + NatStr(5 + i);
  }

  /** Any other segment, constant among them, gets no address code. */
  lemma OtherAddressText(dialect: Dialect, filename: string, seg: string, i: nat)
    requires !KnownSegment(seg)
    ensures Lines(AddressCode(dialect, filename, seg, i)) == []
  {
  }

  /** push constant i reads the index itself. */
  lemma ConstantReadText(i: nat)
    ensures Lines([AtNum(i), Set(DestD, RegA)]) == ["@" + NatStr(i), "D=A"]
  {
    var p := [AtNum(i), Set(DestD, RegA)];
    assert [AtNum(i), Set(DestD, RegA)] == p;
    assert Render(p[0]) == "@" + NatStr(i);
    assert Render(p[1]) == "D=A";
  }

  /** push of a segment reads the addressed cell. */
  lemma ReadText()
    ensures Lines([Set(DestD, RegM)]) == ["D=M"]
  {
    var p := [Set(DestD, RegM)];
    assert [Set(DestD, RegM)] == p;
    assert Render(p[0]) == "D=M";
  }

  lemma PushTailText0()
    ensures Lines([AtSym("SP"), Set(DestA, RegM), Set(DestM, RegD)]) == ["@SP", "A=M", "M=D"]
  {
    var p := [AtSym("SP"), Set(DestA, RegM), Set(DestM, RegD)];
    assert Render(p[0]) == "@SP";
    assert Render(p[1]) == "A=M";
    assert Render(p[2]) == "M=D";
  }

  lemma PushTailText1()
    ensures Lines([AtSym("SP"), Set(DestM, MPlusOne)]) == ["@SP", "M=M+1"]
  {
    var p := [AtSym("SP"), Set(DestM, MPlusOne)];
    assert Render(p[0]) == "@SP";
    assert Render(p[1]) == "M=M+1";
  }

  /** write to stack, increment SP. */
  lemma PushTailText()
    ensures Lines([AtSym("SP"), Set(DestA, RegM), Set(DestM, RegD), AtSym("SP"), Set(DestM, MPlusOne)]) == ["@SP", "A=M", "M=D", "@SP", "M=M+1"]
  {
    var p0 := [AtSym("SP"), Set(DestA, RegM), Set(DestM, RegD)];
    var p1 := [AtSym("SP"), Set(DestM, MPlusOne)];
    assert Lines(p0 + p1) == ["@SP", "A=M", "M=D", "@SP", "M=M+1"] by {
      PushTailText0();
      PushTailText1();
      LinesAppend(p0, p1);
    }
    assert [AtSym("SP"), Set(DestA, RegM), Set(DestM, RegD), AtSym("SP"), Set(DestM, MPlusOne)] == (p0 + p1);
  }

  /** pop keeps the target in R13. */
  lemma PopSaveFullText()
    ensures Lines([Set(DestD, RegA), AtSym(Scratch(Full)), Set(DestM, RegD)]) == ["D=A", "@R13", "M=D"]
  {
    var p := [Set(DestD, RegA), AtSym("R13"), Set(DestM, RegD)];
    assert [Set(DestD, RegA), AtSym(Scratch(Full)), Set(DestM, RegD)] == p;
    assert Render(p[0]) == "D=A";
    assert Render(p[1]) == "@R13";
    assert Render(p[2]) == "M=D";
  }

  /** pop stores D at the address in R13. */
  lemma PopStoreFullText()
    ensures Lines([AtSym(Scratch(Full)), Set(DestA, RegM), Set(DestM, RegD)]) == ["@R13", "A=M", "M=D"]
  {
    var p := [AtSym("R13"), Set(DestA, RegM), Set(DestM, RegD)];
    assert [AtSym(Scratch(Full)), Set(DestA, RegM), Set(DestM, RegD)] == p;
    assert Render(p[0]) == "@R13";
    assert Render(p[1]) == "A=M";
    assert Render(p[2]) == "M=D";
  }

  /** pop keeps the target in address. */
  lemma PopSaveEarlyText()
    ensures Lines([Set(DestD, RegA), AtSym(Scratch(Early)), Set(DestM, RegD)]) == ["D=A", "@address", "M=D"]
  {
    var p := [Set(DestD, RegA), AtSym("address"), Set(DestM, RegD)];
    assert [Set(DestD, RegA), AtSym(Scratch(Early)), Set(DestM, RegD)] == p;
    assert Render(p[0]) == "D=A";
    assert Render(p[1]) == "@address";
    assert Render(p[2]) == "M=D";
  }

  /** pop stores D at the address in address. */
  lemma PopStoreEarlyText()
    ensures Lines([AtSym(Scratch(Early)), Set(DestA, RegM), Set(DestM, RegD)]) == ["@address", "A=M", "M=D"]
  {
    var p := [AtSym("address"), Set(DestA, RegM), Set(DestM, RegD)];
    assert [AtSym(Scratch(Early)), Set(DestA, RegM), Set(DestM, RegD)] == p;
    assert Render(p[0]) == "@address";
    assert Render(p[1]) == "A=M";
    assert Render(p[2]) == "M=D";
  }

  /** decrement SP and read from stack, full translator. */
  lemma PopLoadFullText()
    ensures Lines(PopTop(Full) + [Set(DestD, RegM)]) == ["@SP", "AM=M-1", "D=M"]
  {
    var p := [AtSym("SP"), Set(DestAM, MMinusOne), Set(DestD, RegM)];
    assert PopTop(Full) + [Set(DestD, RegM)] == p;
    assert Render(p[0]) == "@SP";
    assert Render(p[1]) == "AM=M-1";
    assert Render(p[2]) == "D=M";
  }

  lemma PopLoadEarlyText0()
    ensures Lines([AtSym("SP"), Set(DestM, MMinusOne), Set(DestA, RegM)]) == ["@SP", "M=M-1", "A=M"]
  {
    var p := [AtSym("SP"), Set(DestM, MMinusOne), Set(DestA, RegM)];
    assert Render(p[0]) == "@SP";
    assert Render(p[1]) == "M=M-1";
    assert Render(p[2]) == "A=M";
  }

  lemma PopLoadEarlyText1()
    ensures Lines([Set(DestD, RegM)]) == ["D=M"]
  {
    var p := [Set(DestD, RegM)];
    assert Render(p[0]) == "D=M";
  }

  /** decrement SP and read from stack, early translator. */
  lemma PopLoadEarlyText()
    ensures Lines(PopTop(Early) + [Set(DestD, RegM)]) == ["@SP", "M=M-1", "A=M", "D=M"]
  {
    var p0 := [AtSym("SP"), Set(DestM, MMinusOne), Set(DestA, RegM)];
    var p1 := [Set(DestD, RegM)];
    assert Lines(p0 + p1) == ["@SP", "M=M-1", "A=M", "D=M"] by {
      PopLoadEarlyText0();
      PopLoadEarlyText1();
      LinesAppend(p0, p1);
    }
    assert PopTop(Early) + [Set(DestD, RegM)] == (p0 + p1);
  }

  /** `(fn$label)`. */
  lemma LabelText(fn: string, name: string)
    ensures Lines(LabelCode(fn, name)) == ["(" + fn + "$" + name + ")"]
  {
    var p := [Declare(Scoped(fn, name))];
    assert LabelCode(fn, name) == p;
    assert Render(p[0]) == "(" + (fn + "$" + name) + ")";
    assert "(" + (fn + "$" + name) + ")" == "(" + fn + "$" + name + ")";
  }

  /** `@fn$label`, `0;JMP`. */
  lemma GotoText(fn: string, name: string)
    ensures Lines(GotoCode(fn, name)) == ["@" + fn + "$" + name, "0;JMP"]
  {
    var p := [AtSym(Scoped(fn, name)), Goto(Zero, JMP)];
    assert GotoCode(fn, name) == p;
    assert Render(p[0]) == "@" + (fn + "$" + name);
    assert "@" + (fn + "$" + name) == "@" + fn + "$" + name;
    assert Render(p[1]) == "0;JMP";
  }

  lemma IfText0(fn: string, name: string)
    ensures Lines([AtSym("SP"), Set(DestAM, MMinusOne), Set(DestD, RegM)]) == ["@SP", "AM=M-1", "D=M"]
  {
    var p := [AtSym("SP"), Set(DestAM, MMinusOne), Set(DestD, RegM)];
    assert Render(p[0]) == "@SP";
    assert Render(p[1]) == "AM=M-1";
    assert Render(p[2]) == "D=M";
  }

  lemma IfText1(fn: string, name: string)
    ensures Lines([AtSym(Scoped(fn, name)), Goto(RegD, JNE)]) == ["@" + fn + "$" + name, "D;JNE"]
  {
    var p := [AtSym(Scoped(fn, name)), Goto(RegD, JNE)];
    assert Render(p[0]) == "@" + (fn + "$" + name);
    assert "@" + (fn + "$" + name) == "@" + fn + "$" + name;
    assert Render(p[1]) == "D;JNE";
  }

  /** pop, then `D;JNE` to fn$label. */
  lemma IfText(fn: string, name: string)
    ensures Lines(IfCode(fn, name)) == ["@SP", "AM=M-1", "D=M", "@" + fn + "$" + name, "D;JNE"]
  {
    var p0 := [AtSym("SP"), Set(DestAM, MMinusOne), Set(DestD, RegM)];
    var p1 := [AtSym(Scoped(fn, name)), Goto(RegD, JNE)];
    assert Lines(p0 + p1) == ["@SP", "AM=M-1", "D=M", "@" + fn + "$" + name, "D;JNE"] by {
      IfText0(fn, name);
      IfText1(fn, name);
      LinesAppend(p0, p1);
    }
    assert IfCode(fn, name) == (p0 + p1);
  }

  lemma CallHeadText0(k: nat)
    ensures Lines([AtSym(ReturnLabel(k)), Set(DestD, RegA), AtSym("SP")]) == ["@RETURN" + NatStr(k), "D=A", "@SP"]
  {
    var p := [AtSym(ReturnLabel(k)), Set(DestD, RegA), AtSym("SP")];
    LinesOf3(p);
    assert Render(p[0]) == "@" + ("RETURN" + NatStr(k));
    assert "@" + ("RETURN" + NatStr(k)) == "@RETURN" + NatStr(k);
    assert Render(p[1]) == "D=A";
    assert Render(p[2]) == "@SP";
  }

  lemma CallHeadText1(k: nat)
    ensures Lines([Set(DestM, MPlusOne), Set(DestA, MMinusOne), Set(DestM, RegD)]) == ["M=M+1", "A=M-1", "M=D"]
  {
    var p := [Set(DestM, MPlusOne), Set(DestA, MMinusOne), Set(DestM, RegD)];
    assert Render(p[0]) == "M=M+1";
    assert Render(p[1]) == "A=M-1";
    assert Render(p[2]) == "M=D";
  }

  /** push the return address RETURNk. */
  lemma CallHeadText(k: nat)
    ensures Lines(CallHead(k)) == ["@RETURN" + NatStr(k), "D=A", "@SP", "M=M+1", "A=M-1", "M=D"]
  {
    var p0 := [AtSym(ReturnLabel(k)), Set(DestD, RegA), AtSym("SP")];
    var p1 := [Set(DestM, MPlusOne), Set(DestA, MMinusOne), Set(DestM, RegD)];
    assert Lines(p0 + p1) == ["@RETURN" + NatStr(k), "D=A", "@SP", "M=M+1", "A=M-1", "M=D"] by {
      CallHeadText0(k);
      CallHeadText1(k);
      LinesAppend(p0, p1);
    }
    assert CallHead(k) == (p0 + p1);
  }

  lemma SaveText0(reg: string)
    ensures Lines([AtSym(reg), Set(DestD, RegM)]) == ["@" + reg, "D=M"]
  {
    var p := [AtSym(reg), Set(DestD, RegM)];
    assert Render(p[0]) == "@" + reg;
    assert Render(p[1]) == "D=M";
  }

  /** D pushed: the stack pointer is raised first, then D is stored below it. */
  lemma PushDText()
    ensures Lines(PushD()) == ["@SP", "M=M+1", "A=M-1", "M=D"]
  {
    var p := PushD();
    assert Render(p[0]) == "@SP";
    assert Render(p[1]) == "M=M+1";
    assert Render(p[2]) == "A=M-1";
    assert Render(p[3]) == "M=D";
  }

  /** push the value of a pointer register: its value into D, then D pushed. */
  lemma SaveText(reg: string)
    ensures Lines(SaveCode(reg)) == ["@" + reg, "D=M"] + ["@SP", "M=M+1", "A=M-1", "M=D"]
  {
    SaveText0(reg);
    PushDText();
    LinesAppend([AtSym(reg), Set(DestD, RegM)], PushD());
  }

  lemma ArgText0(n: nat)
    ensures Lines([AtNum(n + 5), Set(DestD, RegA), AtSym("SP")]) == ["@" + NatStr(n + 5), "D=A", "@SP"]
  {
    var p := [AtNum(n + 5), Set(DestD, RegA), AtSym("SP")];
    LinesOf3(p);
    assert Render(p[0]) == "@" + NatStr(n + 5);
    assert Render(p[1]) == "D=A";
    assert Render(p[2]) == "@SP";
  }

  lemma ArgText1(n: nat)
    ensures Lines([Set(DestD, MMinusD), AtSym("ARG"), Set(DestM, RegD)]) == ["D=M-D", "@ARG", "M=D"]
  {
    var p := [Set(DestD, MMinusD), AtSym("ARG"), Set(DestM, RegD)];
    assert Render(p[0]) == "D=M-D";
    assert Render(p[1]) == "@ARG";
    assert Render(p[2]) == "M=D";
  }

  /** ARG := SP - n - 5. */
  lemma ArgText(n: nat)
    ensures Lines(ArgCode(n)) == ["@" + NatStr(n + 5), "D=A", "@SP", "D=M-D", "@ARG", "M=D"]
  {
    var p0 := [AtNum(n + 5), Set(DestD, RegA), AtSym("SP")];
    var p1 := [Set(DestD, MMinusD), AtSym("ARG"), Set(DestM, RegD)];
    assert Lines(p0 + p1) == ["@" + NatStr(n + 5), "D=A", "@SP", "D=M-D", "@ARG", "M=D"] by {
      ArgText0(n);
      ArgText1(n);
      LinesAppend(p0, p1);
    }
    assert ArgCode(n) == (p0 + p1);
  }

  lemma LclText0()
    ensures Lines([AtSym("SP"), Set(DestD, RegM), AtSym("LCL")]) == ["@SP", "D=M", "@LCL"]
  {
    var p := [AtSym("SP"), Set(DestD, RegM), AtSym("LCL")];
    assert Render(p[0]) == "@SP";
    assert Render(p[1]) == "D=M";
    assert Render(p[2]) == "@LCL";
  }

  lemma LclText1()
    ensures Lines([Set(DestM, RegD)]) == ["M=D"]
  {
    var p := [Set(DestM, RegD)];
    assert Render(p[0]) == "M=D";
  }

  /** LCL := SP. */
  lemma LclText()
    ensures Lines(LclCode()) == ["@SP", "D=M", "@LCL", "M=D"]
  {
    var p0 := [AtSym("SP"), Set(DestD, RegM), AtSym("LCL")];
    var p1 := [Set(DestM, RegD)];
    assert Lines(p0 + p1) == ["@SP", "D=M", "@LCL", "M=D"] by {
      LclText0();
      LclText1();
      LinesAppend(p0, p1);
    }
    assert LclCode() == (p0 + p1);
  }

  /** goto f. */
  lemma JumpToText(f: string)
    ensures Lines([AtSym(f), Goto(Zero, JMP)]) == ["@" + f, "0;JMP"]
  {
    var p := [AtSym(f), Goto(Zero, JMP)];
    assert [AtSym(f), Goto(Zero, JMP)] == p;
    assert Render(p[0]) == "@" + f;
    assert Render(p[1]) == "0;JMP";
  }

  /** (RETURNk). */
  lemma ReturnDeclareText(k: nat)
    ensures Lines([Declare(ReturnLabel(k))]) == ["(RETURN" + NatStr(k) + ")"]
  {
    var p := [Declare(ReturnLabel(k))];
    assert [Declare(ReturnLabel(k))] == p;
    assert Render(p[0]) == "(" + ("RETURN" + NatStr(k)) + ")";
    assert "(" + ("RETURN" + NatStr(k)) + ")" == "(RETURN" + NatStr(k) + ")";
  }

  lemma SaveReturnText0()
    ensures Lines([AtNum(5), Set(DestD, RegA), AtSym("LCL")]) == ["@5", "D=A", "@LCL"]
  {
    var p := [AtNum(5), Set(DestD, RegA), AtSym("LCL")];
    assert Render(p[0]) == "@5";
    assert Render(p[1]) == "D=A";
    assert Render(p[2]) == "@LCL";
  }

  lemma SaveReturnText1()
    ensures Lines([Set(DestA, MMinusD), Set(DestD, RegM), AtSym("R13")]) == ["A=M-D", "D=M", "@R13"]
  {
    var p := [Set(DestA, MMinusD), Set(DestD, RegM), AtSym("R13")];
    assert Render(p[0]) == "A=M-D";
    assert Render(p[1]) == "D=M";
    assert Render(p[2]) == "@R13";
  }

  lemma SaveReturnText2()
    ensures Lines([Set(DestM, RegD)]) == ["M=D"]
  {
    var p := [Set(DestM, RegD)];
    assert Render(p[0]) == "M=D";
  }

  /** R13 := RAM[LCL - 5]. */
  lemma SaveReturnText()
    ensures Lines(SaveReturnCode()) == ["@5", "D=A", "@LCL", "A=M-D", "D=M", "@R13", "M=D"]
  {
    var p0 := [AtNum(5), Set(DestD, RegA), AtSym("LCL")];
    var p1 := [Set(DestA, MMinusD), Set(DestD, RegM), AtSym("R13")];
    var p2 := [Set(DestM, RegD)];
    assert Lines(p0 + p1) == ["@5", "D=A", "@LCL", "A=M-D", "D=M", "@R13"] by {
      SaveReturnText0();
      SaveReturnText1();
      LinesAppend(p0, p1);
    }
    assert Lines((p0 + p1) + p2) == ["@5", "D=A", "@LCL", "A=M-D", "D=M", "@R13", "M=D"] by {
      SaveReturnText2();
      LinesAppend((p0 + p1), p2);
    }
    assert SaveReturnCode() == ((p0 + p1) + p2);
  }

  lemma ResultText0()
    ensures Lines([AtSym("SP"), Set(DestA, MMinusOne), Set(DestD, RegM)]) == ["@SP", "A=M-1", "D=M"]
  {
    var p := [AtSym("SP"), Set(DestA, MMinusOne), Set(DestD, RegM)];
    assert Render(p[0]) == "@SP";
    assert Render(p[1]) == "A=M-1";
    assert Render(p[2]) == "D=M";
  }

  lemma ResultText1()
    ensures Lines([AtSym("ARG"), Set(DestA, RegM), Set(DestM, RegD)]) == ["@ARG", "A=M", "M=D"]
  {
    var p := [AtSym("ARG"), Set(DestA, RegM), Set(DestM, RegD)];
    assert Render(p[0]) == "@ARG";
    assert Render(p[1]) == "A=M";
    assert Render(p[2]) == "M=D";
  }

  /** RAM[ARG] := the top of the stack. */
  lemma ResultText()
    ensures Lines(ResultCode()) == ["@SP", "A=M-1", "D=M", "@ARG", "A=M", "M=D"]
  {
    var p0 := [AtSym("SP"), Set(DestA, MMinusOne), Set(DestD, RegM)];
    var p1 := [AtSym("ARG"), Set(DestA, RegM), Set(DestM, RegD)];
    assert Lines(p0 + p1) == ["@SP", "A=M-1", "D=M", "@ARG", "A=M", "M=D"] by {
      ResultText0();
      ResultText1();
      LinesAppend(p0, p1);
    }
    assert ResultCode() == (p0 + p1);
  }

  lemma SpText0()
    ensures Lines([AtSym("ARG"), Set(DestD, MPlusOne), AtSym("SP")]) == ["@ARG", "D=M+1", "@SP"]
  {
    var p := [AtSym("ARG"), Set(DestD, MPlusOne), AtSym("SP")];
    assert Render(p[0]) == "@ARG";
    assert Render(p[1]) == "D=M+1";
    assert Render(p[2]) == "@SP";
  }

  lemma SpText1()
    ensures Lines([Set(DestM, RegD)]) == ["M=D"]
  {
    var p := [Set(DestM, RegD)];
    assert Render(p[0]) == "M=D";
  }

  /** SP := ARG + 1. */
  lemma SpText()
    ensures Lines(SpCode()) == ["@ARG", "D=M+1", "@SP", "M=D"]
  {
    var p0 := [AtSym("ARG"), Set(DestD, MPlusOne), AtSym("SP")];
    var p1 := [Set(DestM, RegD)];
    assert Lines(p0 + p1) == ["@ARG", "D=M+1", "@SP", "M=D"] by {
      SpText0();
      SpText1();
      LinesAppend(p0, p1);
    }
    assert SpCode() == (p0 + p1);
  }

  lemma RestoreText0(reg: string)
    ensures Lines([AtSym("LCL"), Set(DestAM, MMinusOne), Set(DestD, RegM)]) == ["@LCL", "AM=M-1", "D=M"]
  {
    var p := [AtSym("LCL"), Set(DestAM, MMinusOne), Set(DestD, RegM)];
    assert Render(p[0]) == "@LCL";
    assert Render(p[1]) == "AM=M-1";
    assert Render(p[2]) == "D=M";
  }

  lemma RestoreText1(reg: string)
    ensures Lines([AtSym(reg), Set(DestM, RegD)]) == ["@" + reg, "M=D"]
  {
    var p := [AtSym(reg), Set(DestM, RegD)];
    assert Render(p[0]) == "@" + reg;
    assert Render(p[1]) == "M=D";
  }

  /** restore one register from the frame. */
  lemma RestoreText(reg: string)
    ensures Lines(RestoreCode(reg)) == ["@LCL", "AM=M-1", "D=M", "@" + reg, "M=D"]
  {
    var p0 := [AtSym("LCL"), Set(DestAM, MMinusOne), Set(DestD, RegM)];
    var p1 := [AtSym(reg), Set(DestM, RegD)];
    assert Lines(p0 + p1) == ["@LCL", "AM=M-1", "D=M", "@" + reg, "M=D"] by {
      RestoreText0(reg);
      RestoreText1(reg);
      LinesAppend(p0, p1);
    }
    assert RestoreCode(reg) == (p0 + p1);
  }

  /** jump to the saved return address. */
  lemma ReturnJumpText()
    ensures Lines(ReturnJump()) == ["@R13", "A=M;JMP"]
  {
    var p := [AtSym("R13"), Compute(DestA, RegM, JMP)];
    assert ReturnJump() == p;
    assert Render(p[0]) == "@R13";
    assert Render(p[1]) == "A=M;JMP";
  }

  /** (f), R13 := 0. */
  lemma FunctionEntryText(f: string)
    ensures Lines(FunctionEntry(f)) == ["(" + f + ")", "@R13", "M=0"]
  {
    var p := [Declare(f), AtSym("R13"), Set(DestM, Zero)];
    LinesOf3(p);
    assert FunctionEntry(f) == p;
    assert Render(p[0]) == "(" + f + ")";
    assert Render(p[1]) == "@R13";
    assert Render(p[2]) == "M=0";
  }

  lemma LoopTestText0(f: string, n: nat)
    ensures Lines([Declare(LoopLabel(f)), AtSym("R13"), Set(DestD, RegM)]) == ["(" + f + "-INITLOOP)", "@R13", "D=M"]
  {
    var p := [Declare(LoopLabel(f)), AtSym("R13"), Set(DestD, RegM)];
    LinesOf3(p);
    assert Render(p[0]) == "(" + (f + "-INITLOOP") + ")";
    assert "(" + (f + "-INITLOOP") + ")" == "(" + f + "-INITLOOP)";
    assert Render(p[1]) == "@R13";
    assert Render(p[2]) == "D=M";
  }

  lemma LoopTestText1(f: string, n: nat)
    ensures Lines([AtNum(n), Set(DestD, DMinusA), AtSym(LoopEndLabel(f))]) == ["@" + NatStr(n), "D=D-A", "@" + f + "-INITLOOP-END"]
  {
    var p := [AtNum(n), Set(DestD, DMinusA), AtSym(LoopEndLabel(f))];
    LinesOf3(p);
    assert Render(p[0]) == "@" + NatStr(n);
    assert Render(p[1]) == "D=D-A";
    assert Render(p[2]) == "@" + (f + "-INITLOOP-END");
    assert "@" + (f + "-INITLOOP-END") == "@" + f + "-INITLOOP-END";
  }

  lemma LoopTestText2(f: string, n: nat)
    ensures Lines([Goto(RegD, JEQ)]) == ["D;JEQ"]
  {
    var p := [Goto(RegD, JEQ)];
    assert Render(p[0]) == "D;JEQ";
  }

  /** the test of the local-initialisation loop. */
  lemma LoopTestText(f: string, n: nat)
    ensures Lines(LoopTest(f, n)) == ["(" + f + "-INITLOOP)", "@R13", "D=M", "@" + NatStr(n), "D=D-A", "@" + f + "-INITLOOP-END", "D;JEQ"]
  {
    var p0 := [Declare(LoopLabel(f)), AtSym("R13"), Set(DestD, RegM)];
    var p1 := [AtNum(n), Set(DestD, DMinusA), AtSym(LoopEndLabel(f))];
    var p2 := [Goto(RegD, JEQ)];
    assert Lines(p0 + p1) == ["(" + f + "-INITLOOP)", "@R13", "D=M", "@" + NatStr(n), "D=D-A", "@" + f + "-INITLOOP-END"] by {
      LoopTestText0(f, n);
      LoopTestText1(f, n);
      LinesAppend(p0, p1);
    }
    assert Lines((p0 + p1) + p2) == ["(" + f + "-INITLOOP)", "@R13", "D=M", "@" + NatStr(n), "D=D-A", "@" + f + "-INITLOOP-END", "D;JEQ"] by {
      LoopTestText2(f, n);
      LinesAppend((p0 + p1), p2);
    }
    assert LoopTest(f, n) == ((p0 + p1) + p2);
  }

  lemma LoopPushText0()
    ensures Lines([AtSym("SP"), Set(DestA, RegM), Set(DestM, Zero)]) == ["@SP", "A=M", "M=0"]
  {
    var p := [AtSym("SP"), Set(DestA, RegM), Set(DestM, Zero)];
    assert Render(p[0]) == "@SP";
    assert Render(p[1]) == "A=M";
    assert Render(p[2]) == "M=0";
  }

  lemma LoopPushText1()
    ensures Lines([AtSym("SP"), Set(DestM, MPlusOne)]) == ["@SP", "M=M+1"]
  {
    var p := [AtSym("SP"), Set(DestM, MPlusOne)];
    assert Render(p[0]) == "@SP";
    assert Render(p[1]) == "M=M+1";
  }

  /** push 0. */
  lemma LoopPushText()
    ensures Lines(LoopPush()) == ["@SP", "A=M", "M=0", "@SP", "M=M+1"]
  {
    var p0 := [AtSym("SP"), Set(DestA, RegM), Set(DestM, Zero)];
    var p1 := [AtSym("SP"), Set(DestM, MPlusOne)];
    assert Lines(p0 + p1) == ["@SP", "A=M", "M=0", "@SP", "M=M+1"] by {
      LoopPushText0();
      LoopPushText1();
      LinesAppend(p0, p1);
    }
    assert LoopPush() == (p0 + p1);
  }

  lemma LoopNextText0(f: string)
    ensures Lines([AtSym("R13"), Set(DestM, MPlusOne), AtSym(LoopLabel(f))]) == ["@R13", "M=M+1", "@" + f + "-INITLOOP"]
  {
    var p := [AtSym("R13"), Set(DestM, MPlusOne), AtSym(LoopLabel(f))];
    LinesOf3(p);
    assert Render(p[0]) == "@R13";
    assert Render(p[1]) == "M=M+1";
    assert Render(p[2]) == "@" + (f + "-INITLOOP");
    assert "@" + (f + "-INITLOOP") == "@" + f + "-INITLOOP";
  }

  lemma LoopNextText1(f: string)
    ensures Lines([Goto(Zero, JMP)]) == ["0;JMP"]
  {
    var p := [Goto(Zero, JMP)];
    assert Render(p[0]) == "0;JMP";
  }

  /** count the local, back to the test. */
  lemma LoopNextText(f: string)
    ensures Lines(LoopNext(f)) == ["@R13", "M=M+1", "@" + f + "-INITLOOP", "0;JMP"]
  {
    var p0 := [AtSym("R13"), Set(DestM, MPlusOne), AtSym(LoopLabel(f))];
    var p1 := [Goto(Zero, JMP)];
    assert Lines(p0 + p1) == ["@R13", "M=M+1", "@" + f + "-INITLOOP", "0;JMP"] by {
      LoopNextText0(f);
      LoopNextText1(f);
      LinesAppend(p0, p1);
    }
    assert LoopNext(f) == (p0 + p1);
  }

  /** (f-INITLOOP-END). */
  lemma LoopEndText(f: string)
    ensures Lines([Declare(LoopEndLabel(f))]) == ["(" + f + "-INITLOOP-END)"]
  {
    var p := [Declare(LoopEndLabel(f))];
    assert [Declare(LoopEndLabel(f))] == p;
    assert Render(p[0]) == "(" + (f + "-INITLOOP-END") + ")";
    assert "(" + (f + "-INITLOOP-END") + ")" == "(" + f + "-INITLOOP-END)";
  }

  lemma InitHeadText0()
    ensures Lines([AtNum(256), Set(DestD, RegA), AtSym("SP")]) == ["@256", "D=A", "@SP"]
  {
    var p := [AtNum(256), Set(DestD, RegA), AtSym("SP")];
    assert Render(p[0]) == "@256";
    assert Render(p[1]) == "D=A";
    assert Render(p[2]) == "@SP";
  }

  lemma InitHeadText1()
    ensures Lines([Set(DestM, RegD)]) == ["M=D"]
  {
    var p := [Set(DestM, RegD)];
    assert Render(p[0]) == "M=D";
  }

  /** SP := 256. */
  lemma InitHeadText()
    ensures Lines([AtNum(256), Set(DestD, RegA), AtSym("SP"), Set(DestM, RegD)]) == ["@256", "D=A", "@SP", "M=D"]
  {
    var p0 := [AtNum(256), Set(DestD, RegA), AtSym("SP")];
    var p1 := [Set(DestM, RegD)];
    assert Lines(p0 + p1) == ["@256", "D=A", "@SP", "M=D"] by {
      InitHeadText0();
      InitHeadText1();
      LinesAppend(p0, p1);
    }
    assert [AtNum(256), Set(DestD, RegA), AtSym("SP"), Set(DestM, RegD)] == (p0 + p1);
  }


  // ---------------------------------------------------------------------
  // Writing the blocks of a command in turn appends the text of the whole
  // command: o is the text already on the stream.
  // ---------------------------------------------------------------------

  lemma InitLines(o: seq<string>, k: nat)
    ensures o + Lines([AtNum(256), Set(DestD, RegA), AtSym("SP"), Set(DestM, RegD)]) + Lines(CallCode("Sys.init", 0, k))
      == o + Lines(InitCode(k))
  {
    LinesJoin(o, [AtNum(256), Set(DestD, RegA), AtSym("SP"), Set(DestM, RegD)], CallCode("Sys.init", 0, k));
  }

  lemma BinaryLines(o: seq<string>, dialect: Dialect, op: string, n: nat)
    requires !IsUnary(op) && !IsComparison(op)
    ensures o + Lines(OperandsCode(dialect)) + Lines([Set(DestM, BinaryComp(op))]) == o + Lines(ArithmeticCode(dialect, op, n))
  {
    LinesJoin(o, OperandsCode(dialect), [Set(DestM, BinaryComp(op))]);
  }

  lemma CompareLines(o: seq<string>, dialect: Dialect, op: string, n: nat)
    requires IsComparison(op)
    ensures o + Lines(OperandsCode(dialect)) + Lines(CompareTest(op, n)) + Lines(FalseBranch(n)) + Lines(TrueBranch(n))
      == o + Lines(ArithmeticCode(dialect, op, n))
  {
    var o' := o + Lines(OperandsCode(dialect));
    LinesJoin3(o', CompareTest(op, n), FalseBranch(n), TrueBranch(n));
    LinesJoin(o, OperandsCode(dialect), CompareCode(op, n));
  }

  lemma PushConstantLines(o: seq<string>, dialect: Dialect, filename: string, i: nat)
    ensures o + Lines([AtNum(i), Set(DestD, RegA)])
        + Lines([AtSym("SP"), Set(DestA, RegM), Set(DestM, RegD), AtSym("SP"), Set(DestM, MPlusOne)])
      == o + Lines(PushCode(dialect, filename, "constant", i))
  {
    LinesJoin(o, [AtNum(i), Set(DestD, RegA)], [AtSym("SP"), Set(DestA, RegM), Set(DestM, RegD), AtSym("SP"), Set(DestM, MPlusOne)]);
  }

  lemma PushSegmentLines(o: seq<string>, dialect: Dialect, filename: string, seg: string, i: nat)
    requires seg != "constant"
    ensures o + Lines(AddressCode(dialect, filename, seg, i)) + Lines([Set(DestD, RegM)])
        + Lines([AtSym("SP"), Set(DestA, RegM), Set(DestM, RegD), AtSym("SP"), Set(DestM, MPlusOne)])
      == o + Lines(PushCode(dialect, filename, seg, i))
  {
    LinesJoin3(o, AddressCode(dialect, filename, seg, i), [Set(DestD, RegM)],
      [AtSym("SP"), Set(DestA, RegM), Set(DestM, RegD), AtSym("SP"), Set(DestM, MPlusOne)]);
  }

  lemma PopLines(o: seq<string>, dialect: Dialect, filename: string, seg: string, i: nat)
    ensures o + Lines(AddressCode(dialect, filename, seg, i))
        + Lines([Set(DestD, RegA), AtSym(Scratch(dialect)), Set(DestM, RegD)])
        + Lines(PopTop(dialect) + [Set(DestD, RegM)])
        + Lines([AtSym(Scratch(dialect)), Set(DestA, RegM), Set(DestM, RegD)])
      == o + Lines(PopCode(dialect, filename, seg, i))
  {
    var a, b, c, d, e := AddressCode(dialect, filename, seg, i),
      [Set(DestD, RegA), AtSym(Scratch(dialect)), Set(DestM, RegD)],
      PopTop(dialect), [Set(DestD, RegM)],
      [AtSym(Scratch(dialect)), Set(DestA, RegM), Set(DestM, RegD)];
    var o' := o + Lines(a) + Lines(b);
    assert o' + Lines(c + d) == o' + Lines(c) + Lines(d) by {
      LinesJoin(o', c, d);
    }
    LinesJoin5(o, a, b, c, d, e);
  }

  /** One more register saved by the loop of `writeCall`. */
  lemma SaveStepLines(o: seq<string>, regs: seq<string>, reg: string)
    ensures o + Lines(SaveAll(regs)) + Lines(SaveCode(reg)) == o + Lines(SaveAll(regs + [reg]))
  {
    assert SaveAll(regs + [reg]) == SaveAll(regs) + SaveCode(reg) by {
      SaveAllAppend(regs, [reg]);
      assert SaveAll([reg]) == SaveCode(reg) + SaveAll([]);
    }
    LinesJoin(o, SaveAll(regs), SaveCode(reg));
  }

  lemma CallLines(o: seq<string>, f: string, n: nat, k: nat)
    ensures o + Lines(CallHead(k)) + Lines(SaveAll(FrameRegisters)) + Lines(ArgCode(n)) + Lines(LclCode())
        + Lines([AtSym(f), Goto(Zero, JMP)]) + Lines([Declare(ReturnLabel(k))])
      == o + Lines(CallCode(f, n, k))
  {
    var o' := o + Lines(CallHead(k)) + Lines(SaveAll(FrameRegisters));
    LinesJoin4(o', ArgCode(n), LclCode(), [AtSym(f), Goto(Zero, JMP)], [Declare(ReturnLabel(k))]);
    LinesJoin3(o, CallHead(k), SaveAll(FrameRegisters), CallTail(f, n, k));
  }

  lemma ReturnHeadLines(o: seq<string>)
    ensures o + Lines(SaveReturnCode()) + Lines(ResultCode()) + Lines(SpCode()) == o + Lines(ReturnHead())
  {
    LinesJoin3(o, SaveReturnCode(), ResultCode(), SpCode());
  }

  /** One more register restored by the loop of `writeReturn`. */
  lemma RestoreStepLines(o: seq<string>, regs: seq<string>, reg: string)
    ensures o + Lines(RestoreAll(regs)) + Lines(RestoreCode(reg)) == o + Lines(RestoreAll(regs + [reg]))
  {
    assert RestoreAll(regs + [reg]) == RestoreAll(regs) + RestoreCode(reg) by {
      RestoreAllAppend(regs, [reg]);
      assert RestoreAll([reg]) == RestoreCode(reg) + RestoreAll([]);
    }
    LinesJoin(o, RestoreAll(regs), RestoreCode(reg));
  }

  lemma ReturnLines(o: seq<string>)
    ensures o + Lines(ReturnHead()) + Lines(RestoreAll(RestoreOrder)) + Lines(ReturnJump()) == o + Lines(ReturnCode())
  {
    LinesJoin3(o, ReturnHead(), RestoreAll(RestoreOrder), ReturnJump());
  }

  lemma FunctionLines(o: seq<string>, f: string, n: nat)
    ensures o + Lines(FunctionEntry(f)) + Lines(LoopTest(f, n)) + Lines(LoopPush()) + Lines(LoopNext(f)) + Lines([Declare(LoopEndLabel(f))])
      == o + Lines(FunctionCode(f, n))
  {
    var o' := o + Lines(FunctionEntry(f)) + Lines(LoopTest(f, n));
    LinesJoin(o', LoopPush(), LoopNext(f));
    LinesJoin4(o, FunctionEntry(f), LoopTest(f, n), LoopBody(f), [Declare(LoopEndLabel(f))]);
  }
}
