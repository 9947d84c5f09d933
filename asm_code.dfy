/**
 * The Code tables of the Hack assembler (06/assembler.cpp): the dest and
 * jump mnemonics are numbered by their place in an eight-entry table, and
 * each of the 28 comp mnemonics has its own 7-bit code, whose top bit (the
 * a-bit) chooses M over A as the ALU's second operand.
 */
module AsmCode {
  import opened Text
  import opened Hack

  /** The dest mnemonics, in the order that gives their codes. */
  const DestTable: seq<string> := ["null", "M", "D", "MD", "A", "AM", "AD", "AMD"]

  /** The jump mnemonics, in the order that gives their codes. */
  const JumpTable: seq<string> := ["null", "JGT", "JEQ", "JGE", "JLT", "JNE", "JLE", "JMP"]

  /**
   * `std::find` over a table, as a position: the first place that holds s,
   * or one past the end when there is none.
   */
  function IndexOf(t: seq<string>, s: string): (r: nat)
    ensures r <= |t|
    ensures r < |t| <==> s in t
    ensures r < |t| ==> t[r] == s
    ensures forall k :: 0 <= k < r ==> t[k] != s
  {
    if t == [] then 0
    else if t[0] == s then 0
    else 1 + IndexOf(t[1..], s)
  }

  /** `Code.dest`: 0..7 for a known mnemonic, 8 for any other text. */
  function DestCode(s: string): (r: nat)
    ensures r <= 8
    ensures r < 8 <==> s in DestTable
    ensures r < 8 ==> DestTable[r] == s
  {
    IndexOf(DestTable, s)
  }

  /** `Code.jump`: 0..7 for a known mnemonic, 8 for any other text. */
  function JumpCode(s: string): (r: nat)
    ensures r <= 8
    ensures r < 8 <==> s in JumpTable
    ensures r < 8 ==> JumpTable[r] == s
  {
    IndexOf(JumpTable, s)
  }

  /**
   * The three dest bits name the registers that are written: A for the
   * bit of 4, D for that of 2 and M for that of 1.
   */
  lemma DestCodeBits(s: string)
    requires s in DestTable
    ensures var d := DestCode(s);
      && (d / 4 == 1 <==> 'A' in s)
      && ((d / 2) % 2 == 1 <==> 'D' in s)
      && (d % 2 == 1 <==> 'M' in s)
  {
    DestBitsAt(DestCode(s));
  }

  lemma DestBitsAt(k: nat)
    requires k < 8
    ensures && (k / 4 == 1 <==> 'A' in DestTable[k])
            && ((k / 2) % 2 == 1 <==> 'D' in DestTable[k])
            && (k % 2 == 1 <==> 'M' in DestTable[k])
  {
  }

  /** When a jump mnemonic jumps on an ALU result v, by its name. */
  predicate JumpsOn(s: string, v: int) {
    || (s == "JGT" && v > 0)
    || (s == "JEQ" && v == 0)
    || (s == "JGE" && v >= 0)
    || (s == "JLT" && v < 0)
    || (s == "JNE" && v != 0)
    || (s == "JLE" && v <= 0)
    || s == "JMP"
  }

  /**
   * The three jump bits say on which results to jump: the bit of 4 on a
   * negative one, that of 2 on zero and that of 1 on a positive one.
   */
  lemma JumpCodeBits(s: string, v: int)
    requires s in JumpTable
    ensures var j := JumpCode(s);
      JumpsOn(s, v) <==> (v < 0 && j / 4 == 1) || (v == 0 && (j / 2) % 2 == 1) || (v > 0 && j % 2 == 1)
  {
    JumpBitsAt(JumpCode(s), v);
  }

  lemma JumpBitsAt(k: nat, v: int)
    requires k < 8
    ensures JumpsOn(JumpTable[k], v) <==> (v < 0 && k / 4 == 1) || (v == 0 && (k / 2) % 2 == 1) || (v > 0 && k % 2 == 1)
  {
  }

  /** The number of comp mnemonics `Code.comp` knows. */
  const CompCount := 28

  /** The k-th comp mnemonic, in the order `Code.comp` tries them. */
  function CompName(k: nat): string
    requires k < CompCount
  {
    match k
    case 0 => "0"
    case 1 => "1"
    case 2 => "-1"
    case 3 => "D"
    case 4 => "A"
    case 5 => "!D"
    case 6 => "!A"
    case 7 => "-D"
    case 8 => "-A"
    case 9 => "D+1"
    case 10 => "A+1"
    case 11 => "D-1"
    case 12 => "A-1"
    case 13 => "D+A"
    case 14 => "D-A"
    case 15 => "A-D"
    case 16 => "D&A"
    case 17 => "D|A"
    case 18 => "M"
    case 19 => "!M"
    case 20 => "-M"
    case 21 => "M+1"
    case 22 => "M-1"
    case 23 => "D+M"
    case 24 => "D-M"
    case 25 => "M-D"
    case 26 => "D&M"
    case _ => "D|M"
  }

  /** The code of the k-th comp mnemonic: the a-bit, then zx, nx, zy, ny, f and no. */
  function CompBits(k: nat): int
    requires k < CompCount
  {
    match k
    case 0 => 0x2A
    case 1 => 0x3F
    case 2 => 0x3A
    case 3 => 0x0C
    case 4 => 0x30
    case 5 => 0x0D
    case 6 => 0x31
    case 7 => 0x0F
    case 8 => 0x33
    case 9 => 0x1F
    case 10 => 0x37
    case 11 => 0x0E
    case 12 => 0x32
    case 13 => 0x02
    case 14 => 0x13
    case 15 => 0x07
    case 16 => 0x00
    case 17 => 0x15
    case 18 => 0x70
    case 19 => 0x71
    case 20 => 0x73
    case 21 => 0x77
    case 22 => 0x72
    case 23 => 0x42
    case 24 => 0x53
    case 25 => 0x47
    case 26 => 0x40
    case _ => 0x55
  }

  /** The first mnemonic from the k-th on that is s, or CompCount when there is none. */
  function FindComp(s: string, k: nat): (r: nat)
    requires k <= CompCount
    ensures k <= r <= CompCount
    ensures r < CompCount ==> CompName(r) == s
    ensures forall i :: k <= i < r ==> CompName(i) != s
    decreases CompCount - k
  {
    if k == CompCount then CompCount
    else if CompName(k) == s then k
    else FindComp(s, k + 1)
  }

  /** The text is one of the comp mnemonics. */
  predicate IsComp(s: string) {
    FindComp(s, 0) < CompCount
  }

  /**
   * `Code.comp`: the mnemonics are tried in their order and the first that
   * matches gives the 7-bit code; any other text gives -1.
   */
  function CompCode(s: string): (r: int)
    ensures !IsComp(s) ==> r == -1
    ensures IsComp(s) ==> 0 <= r < 128
    ensures IsComp(s) ==> (r >= 64 <==> 'M' in s)
  {
    var k := FindComp(s, 0);
    if k < CompCount then CompBitsAt(k); CompBits(k) else -1
  }

  /** The code of each mnemonic has seven bits, and its a-bit is set exactly for those that read M. */
  lemma CompBitsAt(k: nat)
    requires k < CompCount
    ensures 0 <= CompBits(k) < 128
    ensures CompBits(k) >= 64 <==> 'M' in CompName(k)
  {
  }

  /** Different known comp mnemonics have different codes. */
  lemma CompCodeInjective(s: string, t: string)
    requires IsComp(s) && CompCode(s) == CompCode(t)
    ensures s == t
  {
    CompBitsDistinct(FindComp(s, 0), FindComp(t, 0));
  }

  lemma CompBitsDistinct(i: nat, j: nat)
    requires i < CompCount && j < CompCount && CompBits(i) == CompBits(j)
    ensures i == j
  {
  }

  // ---------------------------------------------------------------------
  // What the comp codes compute
  // ---------------------------------------------------------------------

  /** Bitwise negation of a 16-bit word. */
  function Not16(x: Word): Word {
    0xFFFF - x
  }

  /**
   * The Hack ALU: each input can be zeroed and then negated, the two are
   * added (wrapping) or anded, and the output can be negated.
   */
  function AluOut(x: Word, y: Word, zx: bool, nx: bool, zy: bool, ny: bool, f: bool, no: bool): Word {
    var out := if f then W(Input(x, zx, nx) + Input(y, zy, ny)) else And16(Input(x, zx, nx), Input(y, zy, ny));
    if no then Not16(out) else out
  }

  function Input(v: Word, zero: bool, neg: bool): Word {
    var v1 := if zero then 0 else v;
    if neg then Not16(v1) else v1
  }

  /**
   * The ALU driven by a 7-bit comp code: x is D and y is A, or M when the
   * a-bit is set; the other six bits are zx, nx, zy, ny, f and no.
   */
  function Alu(code: int, d: Word, a: Word, m: Word): Word
    requires 0 <= code < 128
  {
    AluOut(d, if code / 64 == 1 then m else a,
      (code / 32) % 2 == 1, (code / 16) % 2 == 1, (code / 8) % 2 == 1,
      (code / 4) % 2 == 1, (code / 2) % 2 == 1, code % 2 == 1)
  }

  /** The ALU setting for 0. */
  lemma AluZero(x: Word, y: Word)
    ensures AluOut(x, y, true, false, true, false, true, false) == 0
  {
    WRange(0);
  }

  /** The ALU setting for 1. */
  lemma AluOne(x: Word, y: Word)
    ensures AluOut(x, y, true, true, true, true, true, true) == 1
  {
    WRange(0xFFFF + 0xFFFF);
  }

  /** The ALU setting for -1. */
  lemma AluMinusOne(x: Word, y: Word)
    ensures AluOut(x, y, true, true, true, false, true, false) == W(-1)
  {
    WRange(0xFFFF + 0);
  }

  /** The ALU setting for x. */
  lemma AluX(x: Word, y: Word)
    ensures AluOut(x, y, false, false, true, true, false, false) == x
  {
    AndOnes(x);
  }

  /** The ALU setting for y. */
  lemma AluY(x: Word, y: Word)
    ensures AluOut(x, y, true, true, false, false, false, false) == y
  {
    OnesAnd(y);
  }

  /** The ALU setting for !x. */
  lemma AluNotX(x: Word, y: Word)
    ensures AluOut(x, y, false, false, true, true, false, true) == Not16(x)
  {
    AndOnes(x);
  }

  /** The ALU setting for !y. */
  lemma AluNotY(x: Word, y: Word)
    ensures AluOut(x, y, true, true, false, false, false, true) == Not16(y)
  {
    OnesAnd(y);
  }

  /** The ALU setting for -x. */
  lemma AluNegX(x: Word, y: Word)
    ensures AluOut(x, y, false, false, true, true, true, true) == W(0 - x)
  {
    WRange(x + 0xFFFF);
    WRange(0 - x);
  }

  /** The ALU setting for -y. */
  lemma AluNegY(x: Word, y: Word)
    ensures AluOut(x, y, true, true, false, false, true, true) == W(0 - y)
  {
    WRange(0xFFFF + y);
    WRange(0 - y);
  }

  /** The ALU setting for x+1. */
  lemma AluIncX(x: Word, y: Word)
    ensures AluOut(x, y, false, true, true, true, true, true) == W(x + 1)
  {
    WRange(Not16(x) + 0xFFFF);
    WRange(x + 1);
  }

  /** The ALU setting for y+1. */
  lemma AluIncY(x: Word, y: Word)
    ensures AluOut(x, y, true, true, false, true, true, true) == W(y + 1)
  {
    WRange(0xFFFF + Not16(y));
    WRange(y + 1);
  }

  /** The ALU setting for x-1. */
  lemma AluDecX(x: Word, y: Word)
    ensures AluOut(x, y, false, false, true, true, true, false) == W(x - 1)
  {
    WRange(x + 0xFFFF);
    WRange(x - 1);
  }

  /** The ALU setting for y-1. */
  lemma AluDecY(x: Word, y: Word)
    ensures AluOut(x, y, true, true, false, false, true, false) == W(y - 1)
  {
    WRange(0xFFFF + y);
    WRange(y - 1);
  }

  /** The ALU setting for x+y. */
  lemma AluAdd(x: Word, y: Word)
    ensures AluOut(x, y, false, false, false, false, true, false) == W(x + y)
  {
    WRange(x + y);
  }

  /** The ALU setting for x-y. */
  lemma AluSub(x: Word, y: Word)
    ensures AluOut(x, y, false, true, false, false, true, true) == W(x - y)
  {
    WRange(Not16(x) + y);
    WRange(x - y);
  }

  /** The ALU setting for y-x. */
  lemma AluSubRev(x: Word, y: Word)
    ensures AluOut(x, y, false, false, false, true, true, true) == W(y - x)
  {
    WRange(x + Not16(y));
    WRange(y - x);
  }

  /** The ALU setting for x&y. */
  lemma AluAnd(x: Word, y: Word)
    ensures AluOut(x, y, false, false, false, false, false, false) == And16(x, y)
  {
  }

  /** The ALU setting for x|y. */
  lemma AluOr(x: Word, y: Word)
    ensures AluOut(x, y, false, true, false, true, false, true) == Or16(x, y)
  {
    NotAndNot(x, y);
  }

  /** An operand of a comp expression: a register or the constant 0 or 1. */
  function Operand(ch: char, d: Word, a: Word, m: Word): Option<Word> {
    match ch
    case 'D' => Some(d)
    case 'A' => Some(a)
    case 'M' => Some(m)
    case '0' => Some(0)
    case '1' => Some(1)
    case _ => None
  }

  /**
   * What a comp mnemonic means, read as an expression in 16-bit arithmetic:
   * an operand, an operand after '!' or '-', or two operands joined by '+',
   * '-', '&' or '|'.
   */
  function Meaning(s: string, d: Word, a: Word, m: Word): Option<Word> {
    if |s| == 1 then Operand(s[0], d, a, m)
    else if |s| == 2 then
      match Operand(s[1], d, a, m)
      case None => None
      case Some(v) =>
        if s[0] == '!' then Some(Not16(v)) else if s[0] == '-' then Some(W(0 - v)) else None
    else if |s| == 3 then
      match (Operand(s[0], d, a, m), Operand(s[2], d, a, m))
      case (Some(x), Some(y)) =>
        if s[1] == '+' then Some(W(x + y))
        else if s[1] == '-' then Some(W(x - y))
        else if s[1] == '&' then Some(And16(x, y))
        else if s[1] == '|' then Some(Or16(x, y))
        else None
      case _ => None
    else None
  }

  /** The code of every known comp mnemonic makes the ALU compute what the mnemonic says. */
  lemma CompCodeComputes(s: string, d: Word, a: Word, m: Word)
    requires IsComp(s)
    ensures Meaning(s, d, a, m) == Some(Alu(CompCode(s), d, a, m))
  {
    CompComputesAt(FindComp(s, 0), d, a, m);
  }

  lemma CompComputesAt(k: nat, d: Word, a: Word, m: Word)
    requires k < CompCount
    ensures Meaning(CompName(k), d, a, m) == Some(Alu(CompBits(k), d, a, m))
  {
    if k == 0 {
      ComputesZero(d, a, m);
    } else if k == 1 {
      ComputesOne(d, a, m);
    } else if k == 2 {
      ComputesMinusOne(d, a, m);
    } else if k == 3 {
      ComputesD(d, a, m);
    } else if k == 4 {
      ComputesA(d, a, m);
    } else if k == 5 {
      ComputesNotD(d, a, m);
    } else if k == 6 {
      ComputesNotA(d, a, m);
    } else if k == 7 {
      ComputesNegD(d, a, m);
    } else if k == 8 {
      ComputesNegA(d, a, m);
    } else if k == 9 {
      ComputesDPlusOne(d, a, m);
    } else if k == 10 {
      ComputesAPlusOne(d, a, m);
    } else if k == 11 {
      ComputesDMinusOne(d, a, m);
    } else if k == 12 {
      ComputesAMinusOne(d, a, m);
    } else if k == 13 {
      ComputesDPlusA(d, a, m);
    } else if k == 14 {
      ComputesDMinusA(d, a, m);
    } else if k == 15 {
      ComputesAMinusD(d, a, m);
    } else if k == 16 {
      ComputesDAndA(d, a, m);
    } else if k == 17 {
      ComputesDOrA(d, a, m);
    } else if k == 18 {
      ComputesM(d, a, m);
    } else if k == 19 {
      ComputesNotM(d, a, m);
    } else if k == 20 {
      ComputesNegM(d, a, m);
    } else if k == 21 {
      ComputesMPlusOne(d, a, m);
    } else if k == 22 {
      ComputesMMinusOne(d, a, m);
    } else if k == 23 {
      ComputesDPlusM(d, a, m);
    } else if k == 24 {
      ComputesDMinusM(d, a, m);
    } else if k == 25 {
      ComputesMMinusD(d, a, m);
    } else if k == 26 {
      ComputesDAndM(d, a, m);
    } else {
      ComputesDOrM(d, a, m);
    }
  }

  lemma ComputesZero(d: Word, a: Word, m: Word)
    ensures Meaning(CompName(0), d, a, m) == Some(Alu(CompBits(0), d, a, m))
  {
    assert CompName(0) == "0" && CompBits(0) == 0x2A;
    assert Alu(0x2A, d, a, m) == 0 by {
      assert 0x2A / 64 == 0 && (0x2A / 32) % 2 == 1 && (0x2A / 16) % 2 == 0 && (0x2A / 8) % 2 == 1;
      assert (0x2A / 4) % 2 == 0 && (0x2A / 2) % 2 == 1 && 0x2A % 2 == 0;
      assert Alu(0x2A, d, a, m) == AluOut(d, a, true, false, true, false, true, false);
      AluZero(d, a);
    }
    assert Meaning("0", d, a, m) == Some(0);
  }

  lemma ComputesOne(d: Word, a: Word, m: Word)
    ensures Meaning(CompName(1), d, a, m) == Some(Alu(CompBits(1), d, a, m))
  {
    assert CompName(1) == "1" && CompBits(1) == 0x3F;
    assert Alu(0x3F, d, a, m) == 1 by {
      assert 0x3F / 64 == 0 && (0x3F / 32) % 2 == 1 && (0x3F / 16) % 2 == 1 && (0x3F / 8) % 2 == 1;
      assert (0x3F / 4) % 2 == 1 && (0x3F / 2) % 2 == 1 && 0x3F % 2 == 1;
      assert Alu(0x3F, d, a, m) == AluOut(d, a, true, true, true, true, true, true);
      AluOne(d, a);
    }
    assert Meaning("1", d, a, m) == Some(1);
  }

  lemma ComputesMinusOne(d: Word, a: Word, m: Word)
    ensures Meaning(CompName(2), d, a, m) == Some(Alu(CompBits(2), d, a, m))
  {
    assert CompName(2) == "-1" && CompBits(2) == 0x3A;
    assert Alu(0x3A, d, a, m) == W(-1) by {
      assert 0x3A / 64 == 0 && (0x3A / 32) % 2 == 1 && (0x3A / 16) % 2 == 1 && (0x3A / 8) % 2 == 1;
      assert (0x3A / 4) % 2 == 0 && (0x3A / 2) % 2 == 1 && 0x3A % 2 == 0;
      assert Alu(0x3A, d, a, m) == AluOut(d, a, true, true, true, false, true, false);
      AluMinusOne(d, a);
    }
    assert Meaning("-1", d, a, m) == Some(W(-1));
  }

  lemma ComputesD(d: Word, a: Word, m: Word)
    ensures Meaning(CompName(3), d, a, m) == Some(Alu(CompBits(3), d, a, m))
  {
    assert CompName(3) == "D" && CompBits(3) == 0x0C;
    assert Alu(0x0C, d, a, m) == d by {
      assert 0x0C / 64 == 0 && (0x0C / 32) % 2 == 0 && (0x0C / 16) % 2 == 0 && (0x0C / 8) % 2 == 1;
      assert (0x0C / 4) % 2 == 1 && (0x0C / 2) % 2 == 0 && 0x0C % 2 == 0;
      assert Alu(0x0C, d, a, m) == AluOut(d, a, false, false, true, true, false, false);
      AluX(d, a);
    }
    assert Meaning("D", d, a, m) == Some(d);
  }

  lemma ComputesA(d: Word, a: Word, m: Word)
    ensures Meaning(CompName(4), d, a, m) == Some(Alu(CompBits(4), d, a, m))
  {
    assert CompName(4) == "A" && CompBits(4) == 0x30;
    assert Alu(0x30, d, a, m) == a by {
      assert 0x30 / 64 == 0 && (0x30 / 32) % 2 == 1 && (0x30 / 16) % 2 == 1 && (0x30 / 8) % 2 == 0;
      assert (0x30 / 4) % 2 == 0 && (0x30 / 2) % 2 == 0 && 0x30 % 2 == 0;
      assert Alu(0x30, d, a, m) == AluOut(d, a, true, true, false, false, false, false);
      AluY(d, a);
    }
    assert Meaning("A", d, a, m) == Some(a);
  }

  lemma ComputesNotD(d: Word, a: Word, m: Word)
    ensures Meaning(CompName(5), d, a, m) == Some(Alu(CompBits(5), d, a, m))
  {
    assert CompName(5) == "!D" && CompBits(5) == 0x0D;
    assert Alu(0x0D, d, a, m) == Not16(d) by {
      assert 0x0D / 64 == 0 && (0x0D / 32) % 2 == 0 && (0x0D / 16) % 2 == 0 && (0x0D / 8) % 2 == 1;
      assert (0x0D / 4) % 2 == 1 && (0x0D / 2) % 2 == 0 && 0x0D % 2 == 1;
      assert Alu(0x0D, d, a, m) == AluOut(d, a, false, false, true, true, false, true);
      AluNotX(d, a);
    }
    assert Meaning("!D", d, a, m) == Some(Not16(d));
  }

  lemma ComputesNotA(d: Word, a: Word, m: Word)
    ensures Meaning(CompName(6), d, a, m) == Some(Alu(CompBits(6), d, a, m))
  {
    assert CompName(6) == "!A" && CompBits(6) == 0x31;
    assert Alu(0x31, d, a, m) == Not16(a) by {
      assert 0x31 / 64 == 0 && (0x31 / 32) % 2 == 1 && (0x31 / 16) % 2 == 1 && (0x31 / 8) % 2 == 0;
      assert (0x31 / 4) % 2 == 0 && (0x31 / 2) % 2 == 0 && 0x31 % 2 == 1;
      assert Alu(0x31, d, a, m) == AluOut(d, a, true, true, false, false, false, true);
      AluNotY(d, a);
    }
    assert Meaning("!A", d, a, m) == Some(Not16(a));
  }

  lemma ComputesNegD(d: Word, a: Word, m: Word)
    ensures Meaning(CompName(7), d, a, m) == Some(Alu(CompBits(7), d, a, m))
  {
    assert CompName(7) == "-D" && CompBits(7) == 0x0F;
    assert Alu(0x0F, d, a, m) == W(0 - d) by {
      assert 0x0F / 64 == 0 && (0x0F / 32) % 2 == 0 && (0x0F / 16) % 2 == 0 && (0x0F / 8) % 2 == 1;
      assert (0x0F / 4) % 2 == 1 && (0x0F / 2) % 2 == 1 && 0x0F % 2 == 1;
      assert Alu(0x0F, d, a, m) == AluOut(d, a, false, false, true, true, true, true);
      AluNegX(d, a);
    }
    assert Meaning("-D", d, a, m) == Some(W(0 - d));
  }

  lemma ComputesNegA(d: Word, a: Word, m: Word)
    ensures Meaning(CompName(8), d, a, m) == Some(Alu(CompBits(8), d, a, m))
  {
    assert CompName(8) == "-A" && CompBits(8) == 0x33;
    assert Alu(0x33, d, a, m) == W(0 - a) by {
      assert 0x33 / 64 == 0 && (0x33 / 32) % 2 == 1 && (0x33 / 16) % 2 == 1 && (0x33 / 8) % 2 == 0;
      assert (0x33 / 4) % 2 == 0 && (0x33 / 2) % 2 == 1 && 0x33 % 2 == 1;
      assert Alu(0x33, d, a, m) == AluOut(d, a, true, true, false, false, true, true);
      AluNegY(d, a);
    }
    assert Meaning("-A", d, a, m) == Some(W(0 - a));
  }

  lemma ComputesDPlusOne(d: Word, a: Word, m: Word)
    ensures Meaning(CompName(9), d, a, m) == Some(Alu(CompBits(9), d, a, m))
  {
    assert CompName(9) == "D+1" && CompBits(9) == 0x1F;
    assert Alu(0x1F, d, a, m) == W(d + 1) by {
      assert 0x1F / 64 == 0 && (0x1F / 32) % 2 == 0 && (0x1F / 16) % 2 == 1 && (0x1F / 8) % 2 == 1;
      assert (0x1F / 4) % 2 == 1 && (0x1F / 2) % 2 == 1 && 0x1F % 2 == 1;
      assert Alu(0x1F, d, a, m) == AluOut(d, a, false, true, true, true, true, true);
      AluIncX(d, a);
    }
    assert Meaning("D+1", d, a, m) == Some(W(d + 1));
  }

  lemma ComputesAPlusOne(d: Word, a: Word, m: Word)
    ensures Meaning(CompName(10), d, a, m) == Some(Alu(CompBits(10), d, a, m))
  {
    assert CompName(10) == "A+1" && CompBits(10) == 0x37;
    assert Alu(0x37, d, a, m) == W(a + 1) by {
      assert 0x37 / 64 == 0 && (0x37 / 32) % 2 == 1 && (0x37 / 16) % 2 == 1 && (0x37 / 8) % 2 == 0;
      assert (0x37 / 4) % 2 == 1 && (0x37 / 2) % 2 == 1 && 0x37 % 2 == 1;
      assert Alu(0x37, d, a, m) == AluOut(d, a, true, true, false, true, true, true);
      AluIncY(d, a);
    }
    assert Meaning("A+1", d, a, m) == Some(W(a + 1));
  }

  lemma ComputesDMinusOne(d: Word, a: Word, m: Word)
    ensures Meaning(CompName(11), d, a, m) == Some(Alu(CompBits(11), d, a, m))
  {
    assert CompName(11) == "D-1" && CompBits(11) == 0x0E;
    assert Alu(0x0E, d, a, m) == W(d - 1) by {
      assert 0x0E / 64 == 0 && (0x0E / 32) % 2 == 0 && (0x0E / 16) % 2 == 0 && (0x0E / 8) % 2 == 1;
      assert (0x0E / 4) % 2 == 1 && (0x0E / 2) % 2 == 1 && 0x0E % 2 == 0;
      assert Alu(0x0E, d, a, m) == AluOut(d, a, false, false, true, true, true, false);
      AluDecX(d, a);
    }
    assert Meaning("D-1", d, a, m) == Some(W(d - 1));
  }

  lemma ComputesAMinusOne(d: Word, a: Word, m: Word)
    ensures Meaning(CompName(12), d, a, m) == Some(Alu(CompBits(12), d, a, m))
  {
    assert CompName(12) == "A-1" && CompBits(12) == 0x32;
    assert Alu(0x32, d, a, m) == W(a - 1) by {
      assert 0x32 / 64 == 0 && (0x32 / 32) % 2 == 1 && (0x32 / 16) % 2 == 1 && (0x32 / 8) % 2 == 0;
      assert (0x32 / 4) % 2 == 0 && (0x32 / 2) % 2 == 1 && 0x32 % 2 == 0;
      assert Alu(0x32, d, a, m) == AluOut(d, a, true, true, false, false, true, false);
      AluDecY(d, a);
    }
    assert Meaning("A-1", d, a, m) == Some(W(a - 1));
  }

  lemma ComputesDPlusA(d: Word, a: Word, m: Word)
    ensures Meaning(CompName(13), d, a, m) == Some(Alu(CompBits(13), d, a, m))
  {
    assert CompName(13) == "D+A" && CompBits(13) == 0x02;
    assert Alu(0x02, d, a, m) == W(d + a) by {
      assert 0x02 / 64 == 0 && (0x02 / 32) % 2 == 0 && (0x02 / 16) % 2 == 0 && (0x02 / 8) % 2 == 0;
      assert (0x02 / 4) % 2 == 0 && (0x02 / 2) % 2 == 1 && 0x02 % 2 == 0;
      assert Alu(0x02, d, a, m) == AluOut(d, a, false, false, false, false, true, false);
      AluAdd(d, a);
    }
    assert Meaning("D+A", d, a, m) == Some(W(d + a));
  }

  lemma ComputesDMinusA(d: Word, a: Word, m: Word)
    ensures Meaning(CompName(14), d, a, m) == Some(Alu(CompBits(14), d, a, m))
  {
    assert CompName(14) == "D-A" && CompBits(14) == 0x13;
    assert Alu(0x13, d, a, m) == W(d - a) by {
      assert 0x13 / 64 == 0 && (0x13 / 32) % 2 == 0 && (0x13 / 16) % 2 == 1 && (0x13 / 8) % 2 == 0;
      assert (0x13 / 4) % 2 == 0 && (0x13 / 2) % 2 == 1 && 0x13 % 2 == 1;
      assert Alu(0x13, d, a, m) == AluOut(d, a, false, true, false, false, true, true);
      AluSub(d, a);
    }
    assert Meaning("D-A", d, a, m) == Some(W(d - a));
  }

  lemma ComputesAMinusD(d: Word, a: Word, m: Word)
    ensures Meaning(CompName(15), d, a, m) == Some(Alu(CompBits(15), d, a, m))
  {
    assert CompName(15) == "A-D" && CompBits(15) == 0x07;
    assert Alu(0x07, d, a, m) == W(a - d) by {
      assert 0x07 / 64 == 0 && (0x07 / 32) % 2 == 0 && (0x07 / 16) % 2 == 0 && (0x07 / 8) % 2 == 0;
      assert (0x07 / 4) % 2 == 1 && (0x07 / 2) % 2 == 1 && 0x07 % 2 == 1;
      assert Alu(0x07, d, a, m) == AluOut(d, a, false, false, false, true, true, true);
      AluSubRev(d, a);
    }
    assert Meaning("A-D", d, a, m) == Some(W(a - d));
  }

  lemma ComputesDAndA(d: Word, a: Word, m: Word)
    ensures Meaning(CompName(16), d, a, m) == Some(Alu(CompBits(16), d, a, m))
  {
    assert CompName(16) == "D&A" && CompBits(16) == 0x00;
    assert Alu(0x00, d, a, m) == And16(d, a) by {
      assert 0x00 / 64 == 0 && (0x00 / 32) % 2 == 0 && (0x00 / 16) % 2 == 0 && (0x00 / 8) % 2 == 0;
      assert (0x00 / 4) % 2 == 0 && (0x00 / 2) % 2 == 0 && 0x00 % 2 == 0;
      assert Alu(0x00, d, a, m) == AluOut(d, a, false, false, false, false, false, false);
      AluAnd(d, a);
    }
    assert Meaning("D&A", d, a, m) == Some(And16(d, a));
  }

  lemma ComputesDOrA(d: Word, a: Word, m: Word)
    ensures Meaning(CompName(17), d, a, m) == Some(Alu(CompBits(17), d, a, m))
  {
    assert CompName(17) == "D|A" && CompBits(17) == 0x15;
    assert Alu(0x15, d, a, m) == Or16(d, a) by {
      assert 0x15 / 64 == 0 && (0x15 / 32) % 2 == 0 && (0x15 / 16) % 2 == 1 && (0x15 / 8) % 2 == 0;
      assert (0x15 / 4) % 2 == 1 && (0x15 / 2) % 2 == 0 && 0x15 % 2 == 1;
      assert Alu(0x15, d, a, m) == AluOut(d, a, false, true, false, true, false, true);
      AluOr(d, a);
    }
    assert Meaning("D|A", d, a, m) == Some(Or16(d, a));
  }

  lemma ComputesM(d: Word, a: Word, m: Word)
    ensures Meaning(CompName(18), d, a, m) == Some(Alu(CompBits(18), d, a, m))
  {
    assert CompName(18) == "M" && CompBits(18) == 0x70;
    assert Alu(0x70, d, a, m) == m by {
      assert 0x70 / 64 == 1 && (0x70 / 32) % 2 == 1 && (0x70 / 16) % 2 == 1 && (0x70 / 8) % 2 == 0;
      assert (0x70 / 4) % 2 == 0 && (0x70 / 2) % 2 == 0 && 0x70 % 2 == 0;
      assert Alu(0x70, d, a, m) == AluOut(d, m, true, true, false, false, false, false);
      AluY(d, m);
    }
    assert Meaning("M", d, a, m) == Some(m);
  }

  lemma ComputesNotM(d: Word, a: Word, m: Word)
    ensures Meaning(CompName(19), d, a, m) == Some(Alu(CompBits(19), d, a, m))
  {
    assert CompName(19) == "!M" && CompBits(19) == 0x71;
    assert Alu(0x71, d, a, m) == Not16(m) by {
      assert 0x71 / 64 == 1 && (0x71 / 32) % 2 == 1 && (0x71 / 16) % 2 == 1 && (0x71 / 8) % 2 == 0;
      assert (0x71 / 4) % 2 == 0 && (0x71 / 2) % 2 == 0 && 0x71 % 2 == 1;
      assert Alu(0x71, d, a, m) == AluOut(d, m, true, true, false, false, false, true);
      AluNotY(d, m);
    }
    assert Meaning("!M", d, a, m) == Some(Not16(m));
  }

  lemma ComputesNegM(d: Word, a: Word, m: Word)
    ensures Meaning(CompName(20), d, a, m) == Some(Alu(CompBits(20), d, a, m))
  {
    assert CompName(20) == "-M" && CompBits(20) == 0x73;
    assert Alu(0x73, d, a, m) == W(0 - m) by {
      assert 0x73 / 64 == 1 && (0x73 / 32) % 2 == 1 && (0x73 / 16) % 2 == 1 && (0x73 / 8) % 2 == 0;
      assert (0x73 / 4) % 2 == 0 && (0x73 / 2) % 2 == 1 && 0x73 % 2 == 1;
      assert Alu(0x73, d, a, m) == AluOut(d, m, true, true, false, false, true, true);
      AluNegY(d, m);
    }
    assert Meaning("-M", d, a, m) == Some(W(0 - m));
  }

  lemma ComputesMPlusOne(d: Word, a: Word, m: Word)
    ensures Meaning(CompName(21), d, a, m) == Some(Alu(CompBits(21), d, a, m))
  {
    assert CompName(21) == "M+1" && CompBits(21) == 0x77;
    assert Alu(0x77, d, a, m) == W(m + 1) by {
      assert 0x77 / 64 == 1 && (0x77 / 32) % 2 == 1 && (0x77 / 16) % 2 == 1 && (0x77 / 8) % 2 == 0;
      assert (0x77 / 4) % 2 == 1 && (0x77 / 2) % 2 == 1 && 0x77 % 2 == 1;
      assert Alu(0x77, d, a, m) == AluOut(d, m, true, true, false, true, true, true);
      AluIncY(d, m);
    }
    assert Meaning("M+1", d, a, m) == Some(W(m + 1));
  }

  lemma ComputesMMinusOne(d: Word, a: Word, m: Word)
    ensures Meaning(CompName(22), d, a, m) == Some(Alu(CompBits(22), d, a, m))
  {
    assert CompName(22) == "M-1" && CompBits(22) == 0x72;
    assert Alu(0x72, d, a, m) == W(m - 1) by {
      assert 0x72 / 64 == 1 && (0x72 / 32) % 2 == 1 && (0x72 / 16) % 2 == 1 && (0x72 / 8) % 2 == 0;
      assert (0x72 / 4) % 2 == 0 && (0x72 / 2) % 2 == 1 && 0x72 % 2 == 0;
      assert Alu(0x72, d, a, m) == AluOut(d, m, true, true, false, false, true, false);
      AluDecY(d, m);
    }
    assert Meaning("M-1", d, a, m) == Some(W(m - 1));
  }

  lemma ComputesDPlusM(d: Word, a: Word, m: Word)
    ensures Meaning(CompName(23), d, a, m) == Some(Alu(CompBits(23), d, a, m))
  {
    assert CompName(23) == "D+M" && CompBits(23) == 0x42;
    assert Alu(0x42, d, a, m) == W(d + m) by {
      assert 0x42 / 64 == 1 && (0x42 / 32) % 2 == 0 && (0x42 / 16) % 2 == 0 && (0x42 / 8) % 2 == 0;
      assert (0x42 / 4) % 2 == 0 && (0x42 / 2) % 2 == 1 && 0x42 % 2 == 0;
      assert Alu(0x42, d, a, m) == AluOut(d, m, false, false, false, false, true, false);
      AluAdd(d, m);
    }
    assert Meaning("D+M", d, a, m) == Some(W(d + m));
  }

  lemma ComputesDMinusM(d: Word, a: Word, m: Word)
    ensures Meaning(CompName(24), d, a, m) == Some(Alu(CompBits(24), d, a, m))
  {
    assert CompName(24) == "D-M" && CompBits(24) == 0x53;
    assert Alu(0x53, d, a, m) == W(d - m) by {
      assert 0x53 / 64 == 1 && (0x53 / 32) % 2 == 0 && (0x53 / 16) % 2 == 1 && (0x53 / 8) % 2 == 0;
      assert (0x53 / 4) % 2 == 0 && (0x53 / 2) % 2 == 1 && 0x53 % 2 == 1;
      assert Alu(0x53, d, a, m) == AluOut(d, m, false, true, false, false, true, true);
      AluSub(d, m);
    }
    assert Meaning("D-M", d, a, m) == Some(W(d - m));
  }

  lemma ComputesMMinusD(d: Word, a: Word, m: Word)
    ensures Meaning(CompName(25), d, a, m) == Some(Alu(CompBits(25), d, a, m))
  {
    assert CompName(25) == "M-D" && CompBits(25) == 0x47;
    assert Alu(0x47, d, a, m) == W(m - d) by {
      assert 0x47 / 64 == 1 && (0x47 / 32) % 2 == 0 && (0x47 / 16) % 2 == 0 && (0x47 / 8) % 2 == 0;
      assert (0x47 / 4) % 2 == 1 && (0x47 / 2) % 2 == 1 && 0x47 % 2 == 1;
      assert Alu(0x47, d, a, m) == AluOut(d, m, false, false, false, true, true, true);
      AluSubRev(d, m);
    }
    assert Meaning("M-D", d, a, m) == Some(W(m - d));
  }

  lemma ComputesDAndM(d: Word, a: Word, m: Word)
    ensures Meaning(CompName(26), d, a, m) == Some(Alu(CompBits(26), d, a, m))
  {
    assert CompName(26) == "D&M" && CompBits(26) == 0x40;
    assert Alu(0x40, d, a, m) == And16(d, m) by {
      assert 0x40 / 64 == 1 && (0x40 / 32) % 2 == 0 && (0x40 / 16) % 2 == 0 && (0x40 / 8) % 2 == 0;
      assert (0x40 / 4) % 2 == 0 && (0x40 / 2) % 2 == 0 && 0x40 % 2 == 0;
      assert Alu(0x40, d, a, m) == AluOut(d, m, false, false, false, false, false, false);
      AluAnd(d, m);
    }
    assert Meaning("D&M", d, a, m) == Some(And16(d, m));
  }

  lemma ComputesDOrM(d: Word, a: Word, m: Word)
    ensures Meaning(CompName(27), d, a, m) == Some(Alu(CompBits(27), d, a, m))
  {
    assert CompName(27) == "D|M" && CompBits(27) == 0x55;
    assert Alu(0x55, d, a, m) == Or16(d, m) by {
      assert 0x55 / 64 == 1 && (0x55 / 32) % 2 == 0 && (0x55 / 16) % 2 == 1 && (0x55 / 8) % 2 == 0;
      assert (0x55 / 4) % 2 == 1 && (0x55 / 2) % 2 == 0 && 0x55 % 2 == 1;
      assert Alu(0x55, d, a, m) == AluOut(d, m, false, true, false, true, false, true);
      AluOr(d, m);
    }
    assert Meaning("D|M", d, a, m) == Some(Or16(d, m));
  }

  lemma WRange(x: int)
    requires -WordCount <= x < 2 * WordCount
    ensures W(x) == if x < 0 then x + WordCount else if x < WordCount then x else x - WordCount
  {
  }

  /** Anding with all ones keeps a word. */
  lemma AndOnes(x: Word)
    ensures And16(x, 0xFFFF) == x
  {
    Pow2Word();
    AndAllOnes(x, 16);
  }

  lemma OnesAnd(x: Word)
    ensures And16(0xFFFF, x) == x
  {
    Pow2Word();
    OnesAndAll(x, 16);
  }

  lemma {:induction false} AndAllOnes(x: nat, n: nat)
    requires x < Pow2(n)
    ensures AndBits(x, Pow2(n) - 1) == x
  {
    if x > 0 {
      HalfOnes(n);
      AndAllOnes(x / 2, n - 1);
    }
  }

  lemma {:induction false} OnesAndAll(x: nat, n: nat)
    requires x < Pow2(n)
    ensures AndBits(Pow2(n) - 1, x) == x
  {
    if x > 0 {
      HalfOnes(n);
      OnesAndAll(x / 2, n - 1);
    }
  }

  lemma {:induction false} OrAllOnes(x: nat, n: nat)
    requires x < Pow2(n)
    ensures OrBits(x, Pow2(n) - 1) == Pow2(n) - 1
  {
    if x > 0 && n > 0 {
      HalfOnes(n);
      OrAllOnes(x / 2, n - 1);
    }
  }

  lemma {:induction false} OnesOrAll(x: nat, n: nat)
    requires x < Pow2(n)
    ensures OrBits(Pow2(n) - 1, x) == Pow2(n) - 1
  {
    if x > 0 && n > 0 {
      HalfOnes(n);
      OnesOrAll(x / 2, n - 1);
    }
  }

  /** All ones in n bits, halved, is all ones in n - 1 bits. */
  lemma HalfOnes(n: nat)
    requires n > 0
    ensures (Pow2(n) - 1) / 2 == Pow2(n - 1) - 1 && (Pow2(n) - 1) % 2 == 1
  {
  }

  /** De Morgan: the negated and of the negations is the or. */
  lemma NotAndNot(x: Word, y: Word)
    ensures Not16(And16(Not16(x), Not16(y))) == Or16(x, y)
  {
    Pow2Word();
    DeMorganLaw(x, y, 16);
  }

  lemma {:induction false} DeMorganLaw(x: nat, y: nat, n: nat)
    requires x < Pow2(n) && y < Pow2(n)
    ensures DeMorganAt(x, y, Pow2(n) - 1)
    decreases n, 1
  {
    if x == 0 || y == 0 || x == Pow2(n) - 1 || y == Pow2(n) - 1 {
      DeMorganEdge(x, y, n);
    } else {
      DeMorganInner(x, y, n);
    }
  }

  /** De Morgan's law at the width whose all-ones word is `ones`. */
  predicate DeMorganAt(x: nat, y: nat, ones: nat) {
    x <= ones && y <= ones && ones - AndBits(ones - x, ones - y) == OrBits(x, y)
  }

  /** De Morgan's law when neither word is all zeros or all ones: the low bit and the rest. */
  lemma DeMorganInner(x: nat, y: nat, n: nat)
    requires 0 < x < Pow2(n) - 1 && 0 < y < Pow2(n) - 1
    ensures DeMorganAt(x, y, Pow2(n) - 1)
    decreases n, 0
  {
    DeMorganLaw(x / 2, y / 2, n - 1);
    DeMorganStep(x, y, Pow2(n - 1), Pow2(n) - 1);
  }

  /** De Morgan's law when one of the words is all zeros or all ones. */
  lemma DeMorganEdge(x: nat, y: nat, n: nat)
    requires x < Pow2(n) && y < Pow2(n)
    requires x == 0 || y == 0 || x == Pow2(n) - 1 || y == Pow2(n) - 1
    ensures DeMorganAt(x, y, Pow2(n) - 1)
  {
    var ones := Pow2(n) - 1;
    if x == 0 {
      OnesAndAll(ones - y, n);
    } else if y == 0 {
      AndAllOnes(ones - x, n);
    } else if x == ones {
      OrAllOnes(y, n);
      OrSymmetric(x, y);
    } else {
      OrAllOnes(x, n);
    }
  }

  /** One bit of De Morgan's law, given the law for the higher bits. */
  lemma DeMorganStep(x: nat, y: nat, p: nat, ones: nat)
    requires ones == 2 * p - 1 && 0 < x < ones && 0 < y < ones
    requires DeMorganAt(x / 2, y / 2, p - 1)
    ensures DeMorganAt(x, y, ones)
  {
    ComplementHalves(x, p);
    ComplementHalves(y, p);
  }

  lemma {:induction false} OrSymmetric(x: nat, y: nat)
    ensures OrBits(x, y) == OrBits(y, x)
  {
    if x > 0 && y > 0 {
      OrSymmetric(x / 2, y / 2);
    }
  }

  /** The complement of x in 2p bits, halved, is the complement of x / 2 in p bits. */
  lemma ComplementHalves(x: nat, p: nat)
    requires x < 2 * p
    ensures (2 * p - 1 - x) / 2 == p - 1 - x / 2
    ensures (2 * p - 1 - x) % 2 == 1 - x % 2
  {
    var q, b := x / 2, x % 2;
    assert 2 * p - 1 - x == 2 * (p - 1 - q) + (1 - b);
  }
}
