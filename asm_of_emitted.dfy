/**
 * The computations the VM translators emit, read back by the assembler's
 * comp table: all but three are known to it and are encoded so that the
 * ALU computes what the interpreter of the emitted code assumes.
 */
module AsmOfEmitted {
  import opened Text
  import opened Hack
  import opened AsmCode
  import AsmEncode
  import AsmParser
  import AsmMain

  /** M+D, M|D and M&D are emitted by the translators but are not in the comp table. */
  lemma EmittedCompKnown(c: Comp)
    ensures IsComp(CompText(c)) <==> !(c == MPlusD || c == MOrD || c == MAndD)
  {
    if c == MPlusD || c == MOrD || c == MAndD {
      UnknownComps();
    } else if c.Zero? || c.MinusOne? || c.RegA? || c.RegD? || c.RegM? || c.NotM? {
      KnownOperands(c);
    } else {
      KnownOperations(c);
    }
  }

  lemma KnownOperands(c: Comp)
    requires c.Zero? || c.MinusOne? || c.RegA? || c.RegD? || c.RegM? || c.NotM?
    ensures IsComp(CompText(c))
  {
    match c
    case Zero => FoundBy(CompText(c), 0, 0);
    case MinusOne => FoundBy(CompText(c), 0, 2);
    case RegA => FoundBy(CompText(c), 0, 4);
    case RegD => FoundBy(CompText(c), 0, 3);
    case RegM => FoundBy(CompText(c), 0, 18);
    case NotM => FoundBy(CompText(c), 0, 19);
  }

  lemma KnownOperations(c: Comp)
    requires c.NegM? || c.MMinusOne? || c.MPlusOne? || c.MMinusD? || c.DPlusM? || c.DMinusA?
    ensures IsComp(CompText(c))
  {
    match c
    case NegM => FoundBy(CompText(c), 0, 20);
    case MMinusOne => FoundBy(CompText(c), 0, 22);
    case MPlusOne => FoundBy(CompText(c), 0, 21);
    case MMinusD => FoundBy(CompText(c), 0, 25);
    case DPlusM => FoundBy(CompText(c), 0, 23);
    case DMinusA => FoundBy(CompText(c), 0, 14);
  }

  /** A mnemonic at place k is found there or earlier. */
  lemma FoundBy(s: string, j: nat, k: nat)
    requires j <= k < CompCount && CompName(k) == s
    ensures FindComp(s, j) <= k
    decreases k - j
  {
    if CompName(j) != s {
      FoundBy(s, j + 1, k);
    }
  }

  lemma UnknownComps()
    ensures !IsComp("M+D") && !IsComp("M|D") && !IsComp("M&D")
  {
    UnknownPlus();
    UnknownOr();
    UnknownAnd();
  }

  lemma UnknownPlus()
    ensures !IsComp("M+D")
  {
    forall i: nat | i < CompCount
      ensures CompName(i) != "M+D"
    {
    }
  }

  lemma UnknownOr()
    ensures !IsComp("M|D")
  {
    forall i: nat | i < CompCount
      ensures CompName(i) != "M|D"
    {
    }
  }

  lemma UnknownAnd()
    ensures !IsComp("M&D")
  {
    forall i: nat | i < CompCount
      ensures CompName(i) != "M&D"
    {
    }
  }

  /** Every other emitted computation is assembled into the code of what it computes. */
  lemma EmittedCompComputes(c: Comp, a: Word, d: Word, m: Word)
    requires IsComp(CompText(c))
    ensures Alu(CompCode(CompText(c)), d, a, m) == Eval(c, a, d, m)
  {
    CompCodeComputes(CompText(c), d, a, m);
    EmittedCompKnown(c);
    EmittedMeaning(c, a, d, m);
  }

  /** The text of an emitted computation means what the interpreter computes for it. */
  lemma EmittedMeaning(c: Comp, a: Word, d: Word, m: Word)
    requires !(c == MPlusD || c == MOrD || c == MAndD)
    ensures Meaning(CompText(c), d, a, m) == Some(Eval(c, a, d, m))
  {
    WRange(-1 - m);
  }

  // ---------------------------------------------------------------------
  // The three computations the comp table lacks
  // ---------------------------------------------------------------------

  /** The seven comp bits all set: the ALU adds !0 and !0 and negates the sum, giving 1. */
  lemma AllOnesCodeIsOne(d: Word, a: Word, m: Word)
    ensures Alu(127, d, a, m) == 1
  {
    assert 127 / 64 == 1 && (127 / 32) % 2 == 1 && (127 / 16) % 2 == 1 && (127 / 8) % 2 == 1;
    assert (127 / 4) % 2 == 1 && (127 / 2) % 2 == 1 && 127 % 2 == 1;
    assert Alu(127, d, a, m) == AluOut(d, m, true, true, true, true, true, true);
    AluOne(d, m);
  }

  /** The assembler's parser splits an emitted `M=c` into dest M, comp c and no jump. */
  lemma AssignFields(cp: string)
    requires AsmParser.Lacks(cp, AsmParser.IsSemicolon)
    ensures var line := "M=" + cp;
      AsmParser.Dest(line) == "M" && AsmParser.Comp(line) == cp && AsmParser.Jump(line) == "null"
  {
    assert "M=" + cp == AsmParser.Build(Some("M"), cp, None);
    assert AsmParser.FieldsApart(Some("M"), cp, None);
    AsmParser.FieldsOfBuild(Some("M"), cp, None);
  }

  /** The dest code of M and the jump code of "null". */
  lemma AssignCodes()
    ensures DestCode("M") == 1 && JumpCode("null") == 0
  {
    assert DestTable[1] == "M";
    assert JumpTable[0] == "null";
    var r := DestCode("M");
    assert r < 8 && DestTable[r] == "M";
    assert forall k :: 0 <= k < 8 && DestTable[k] == "M" ==> k == 1;
  }

  /** The emitted line of `M=M+D`, `M=M|D` or `M=M&D` is the dest M and the unknown comp. */
  lemma EmittedBinaryLine(c: Comp)
    requires c == MPlusD || c == MOrD || c == MAndD
    ensures var line := Render(Compute(DestM, c, NoJump));
      && line == "M=" + CompText(c)
      && AsmMain.CCommandWord(line) == AsmEncode.CWord(-1, 1, 0)
  {
    var cp := CompText(c);
    assert Render(Compute(DestM, c, NoJump)) == "M=" + cp;
    assert AsmParser.Lacks(cp, AsmParser.IsSemicolon);
    AssignFields(cp);
    assert CompCode(cp) == -1 by {
      UnknownComps();
    }
    AssignCodes();
  }

  /**
   * What this assembler makes of `M=M+D`, `M=M|D` and `M=M&D`
   * (vm_translator.cpp:164-170): the comp field is looked up as -1, and
   * `(7 << 13) + (-1 << 6) + (1 << 3)` is the word 0xDFC8, whose seven comp
   * bits are all ones. On the Hack CPU that word computes the constant 1,
   * so add, or and and overwrite the top of the stack with 1.
   */
  lemma EmittedBinaryWord(c: Comp, d: Word, a: Word, m: Word)
    requires c == MPlusD || c == MOrD || c == MAndD
    ensures var w := AsmMain.CCommandWord(Render(Compute(DestM, c, NoJump)));
      && w == AsmEncode.CWord(-1, 1, 0) && w == 0xDFC8
      && (w / 64) % 128 == 127 && (w / 8) % 8 == 1 && w % 8 == 0
      && Alu((w / 64) % 128, d, a, m) == 1
  {
    EmittedBinaryLine(c);
    UnknownWord();
    AllOnesCodeIsOne(d, a, m);
  }

  /** The word of comp -1, dest 1 and jump 0, and its fields. */
  lemma UnknownWord()
    ensures AsmEncode.CWord(-1, 1, 0) == 0xDFC8
    ensures (0xDFC8 / 64) % 128 == 127 && (0xDFC8 / 8) % 8 == 1 && 0xDFC8 % 8 == 0
  {
  }

  /**
   * The spelling of each emitted computation that the comp table knows:
   * `D+M`, `D|M` and `D&M` for the three it lacks, the emitted text for
   * the others.
   */
  function FixedCompText(c: Comp): string {
    match c
    case MPlusD => "D+M"
    case MOrD => "D|M"
    case MAndD => "D&M"
    case _ => CompText(c)
  }

  lemma {:induction false} AndSymmetric(x: nat, y: nat)
    ensures AndBits(x, y) == AndBits(y, x)
  {
    if x > 0 && y > 0 {
      AndSymmetric(x / 2, y / 2);
    }
  }

  lemma SumMeaning(d: Word, a: Word, m: Word)
    ensures Meaning("D+M", d, a, m) == Some(W(d + m))
  {
    assert |"D+M"| == 3 && "D+M"[0] == 'D' && "D+M"[1] == '+' && "D+M"[2] == 'M';
  }

  lemma FixedPlus(a: Word, d: Word, m: Word)
    ensures IsComp("D+M") && Alu(CompCode("D+M"), d, a, m) == Eval(MPlusD, a, d, m)
  {
    FoundBy("D+M", 0, 23);
    assert Meaning("D+M", d, a, m) == Some(Alu(CompCode("D+M"), d, a, m)) by {
      CompCodeComputes("D+M", d, a, m);
    }
    SumMeaning(d, a, m);
  }

  lemma FixedOr(a: Word, d: Word, m: Word)
    ensures IsComp("D|M") && Alu(CompCode("D|M"), d, a, m) == Eval(MOrD, a, d, m)
  {
    FoundBy("D|M", 0, 27);
    assert Meaning("D|M", d, a, m) == Some(Alu(CompCode("D|M"), d, a, m)) by {
      CompCodeComputes("D|M", d, a, m);
    }
    assert Meaning("D|M", d, a, m) == Some(Or16(d, m)) by {
      assert |"D|M"| == 3 && "D|M"[0] == 'D' && "D|M"[1] == '|' && "D|M"[2] == 'M';
    }
    OrSymmetric(d, m);
  }

  lemma FixedAnd(a: Word, d: Word, m: Word)
    ensures IsComp("D&M") && Alu(CompCode("D&M"), d, a, m) == Eval(MAndD, a, d, m)
  {
    FoundBy("D&M", 0, 26);
    assert Meaning("D&M", d, a, m) == Some(Alu(CompCode("D&M"), d, a, m)) by {
      CompCodeComputes("D&M", d, a, m);
    }
    assert Meaning("D&M", d, a, m) == Some(And16(d, m)) by {
      assert |"D&M"| == 3 && "D&M"[0] == 'D' && "D&M"[1] == '&' && "D&M"[2] == 'M';
    }
    AndSymmetric(d, m);
  }

  /**
   * With the corrected spelling every emitted computation is in the comp
   * table, and its code makes the ALU compute what the interpreter of the
   * emitted code assumes.
   */
  lemma FixedCompComputes(c: Comp, a: Word, d: Word, m: Word)
    ensures IsComp(FixedCompText(c))
    ensures Alu(CompCode(FixedCompText(c)), d, a, m) == Eval(c, a, d, m)
  {
    if c == MPlusD {
      FixedPlus(a, d, m);
    } else if c == MOrD {
      FixedOr(a, d, m);
    } else if c == MAndD {
      FixedAnd(a, d, m);
    } else {
      assert FixedCompText(c) == CompText(c);
      EmittedCompKnown(c);
      EmittedCompComputes(c, a, d, m);
    }
  }

  /**
   * The corrected line `M=D+M` (or `M=D|M`, `M=D&M`) assembles to a C-word
   * that writes M and computes what the VM command means.
   */
  lemma FixedBinaryWord(c: Comp, d: Word, a: Word, m: Word)
    requires c == MPlusD || c == MOrD || c == MAndD
    ensures var w := AsmMain.CCommandWord("M=" + FixedCompText(c));
      && w / 8192 == 7 && (w / 8) % 8 == 1 && w % 8 == 0
      && Alu((w / 64) % 128, d, a, m) == Eval(c, a, d, m)
  {
    var cp := FixedCompText(c);
    assert AsmParser.Lacks(cp, AsmParser.IsSemicolon);
    AssignFields(cp);
    FixedCompComputes(c, a, d, m);
    AssignCodes();
    AsmEncode.CWordFields(CompCode(cp), 1, 0);
  }
}
