/**
 * The subset of Hack assembly the translators emit (Nisan & Schocken, The
 * Elements of Computing Systems, chapter 4), its exact text, and a small
 * interpreter over 16-bit words used to state what each emitted template
 * does to the machine.
 */
module Hack {
  import opened Text

  // ---------------------------------------------------------------------
  // Instructions and their text
  // ---------------------------------------------------------------------

  /** The destinations the templates use. */
  datatype Dest = NoDest | DestA | DestD | DestM | DestAM

  /** The computations the templates use. */
  datatype Comp =
    | Zero | MinusOne | RegA | RegD | RegM
    | NotM | NegM | MMinusOne | MPlusOne
    | MPlusD | MMinusD | MOrD | MAndD | DPlusM | DMinusA

  datatype Jump = NoJump | JEQ | JGT | JLT | JNE | JMP

  datatype Instr =
    | AtNum(n: nat)      // @n
    | AtSym(s: string)   // @symbol
    | Compute(dest: Dest, comp: Comp, jump: Jump)
    | Declare(name: string)  // (name)

  function DestText(d: Dest): string {
    match d
    case NoDest => ""
    case DestA => "A"
    case DestD => "D"
    case DestM => "M"
    case DestAM => "AM"
  }

  function CompText(c: Comp): string {
    match c
    case Zero => "0"
    case MinusOne => "-1"
    case RegA => "A"
    case RegD => "D"
    case RegM => "M"
    case NotM => "!M"
    case NegM => "-M"
    case MMinusOne => "M-1"
    case MPlusOne => "M+1"
    case MPlusD => "M+D"
    case MMinusD => "M-D"
    case MOrD => "M|D"
    case MAndD => "M&D"
    case DPlusM => "D+M"
    case DMinusA => "D-A"
  }

  function JumpText(j: Jump): string {
    match j
    case NoJump => ""
    case JEQ => "JEQ"
    case JGT => "JGT"
    case JLT => "JLT"
    case JNE => "JNE"
    case JMP => "JMP"
  }

  /** The line the writers print for one instruction. */
  function Render(i: Instr): string {
    match i
    case AtNum(n) => "@" + NatStr(n)
    case AtSym(s) => "@" + s
    case Declare(l) => "(" + l + ")"
    case Compute(d, c, j) =>
      (if d == NoDest then "" else DestText(d) + "=") + CompText(c) +
      (if j == NoJump then "" else ";" + JumpText(j))
  }

  /** The lines of a program, one per instruction. */
  function Lines(p: seq<Instr>): (lines: seq<string>)
    ensures |lines| == |p|
  {
    if p == [] then [] else [Render(p[0])] + Lines(p[1..])
  }

  /** The lines of three instructions. */
  lemma LinesOf3(p: seq<Instr>)
    requires |p| == 3
    ensures Lines(p) == [Render(p[0]), Render(p[1]), Render(p[2])]
  {
    var q := p[1..];
    var r := q[1..];
    assert r == [p[2]];
    assert r[1..] == [];
    assert Lines(r) == [Render(p[2])];
    assert Lines(q) == [Render(p[1])] + Lines(r);
  }

  lemma {:induction false} LinesAppend(p: seq<Instr>, q: seq<Instr>)
    ensures Lines(p + q) == Lines(p) + Lines(q)
  {
    if p == [] {
      assert p + q == q;
    } else {
      assert (p + q)[0] == p[0];
      assert (p + q)[1..] == p[1..] + q;
      LinesAppend(p[1..], q);
    }
  }

  /** Writing the text of the blocks of a program in turn, after o, writes the text of the program. */
  lemma LinesJoin(o: seq<string>, a: seq<Instr>, b: seq<Instr>)
    ensures o + Lines(a) + Lines(b) == o + Lines(a + b)
  {
    LinesAppend(a, b);
  }

  lemma LinesJoin3(o: seq<string>, a: seq<Instr>, b: seq<Instr>, c: seq<Instr>)
    ensures o + Lines(a) + Lines(b) + Lines(c) == o + Lines(a + b + c)
  {
    LinesJoin(o, a, b);
    LinesJoin(o, a + b, c);
  }

  lemma LinesJoin4(o: seq<string>, a: seq<Instr>, b: seq<Instr>, c: seq<Instr>, d: seq<Instr>)
    ensures o + Lines(a) + Lines(b) + Lines(c) + Lines(d) == o + Lines(a + b + c + d)
  {
    LinesJoin3(o, a, b, c);
    LinesJoin(o, a + b + c, d);
  }

  lemma LinesJoin5(o: seq<string>, a: seq<Instr>, b: seq<Instr>, c: seq<Instr>, d: seq<Instr>, e: seq<Instr>)
    ensures o + Lines(a) + Lines(b) + Lines(c) + Lines(d) + Lines(e) == o + Lines(a + b + c + d + e)
  {
    LinesJoin4(o, a, b, c, d);
    LinesJoin(o, a + b + c + d, e);
  }

  /** The names a program declares with `(name)`, in order. */
  function Declared(p: seq<Instr>): (names: seq<string>)
    ensures |names| <= |p|
  {
    if p == [] then []
    else (if p[0].Declare? then [p[0].name] else []) + Declared(p[1..])
  }

  lemma {:induction false} DeclaredAppend(p: seq<Instr>, q: seq<Instr>)
    ensures Declared(p + q) == Declared(p) + Declared(q)
  {
    if p == [] {
      assert p + q == q;
    } else {
      assert (p + q)[0] == p[0];
      assert (p + q)[1..] == p[1..] + q;
      DeclaredAppend(p[1..], q);
    }
  }

  // ---------------------------------------------------------------------
  // 16-bit words and the machine
  // ---------------------------------------------------------------------

  const WordCount := 0x1_0000

  /**
   * `@n` is an A-instruction only for n below 2^15: the assembler writes a
   * larger n as a word whose top bit is set, which the CPU runs as a
   * C-instruction. The interpreter's `@n` is only read below this bound.
   */
  const AddressLimit := 0x8000

  type Word = x: int | 0 <= x < 0x1_0000

  /** Truncation to 16 bits, as the ALU wraps around. */
  function W(x: int): Word {
    x % WordCount
  }

  /** A word read as a two's-complement number. */
  function Signed(w: Word): (v: int)
    ensures -0x8000 <= v < 0x8000
    ensures W(v) == w
  {
    if w < 0x8000 then w else w - WordCount
  }

  /** Bitwise and. */
  function AndBits(x: nat, y: nat): (r: nat)
    ensures r <= x && r <= y
  {
    if x == 0 || y == 0 then 0
    else 2 * AndBits(x / 2, y / 2) + (if x % 2 == 1 && y % 2 == 1 then 1 else 0)
  }

  /** Bitwise or. */
  function OrBits(x: nat, y: nat): nat {
    if x == 0 then y
    else if y == 0 then x
    else 2 * OrBits(x / 2, y / 2) + (if x % 2 == 1 || y % 2 == 1 then 1 else 0)
  }

  function Pow2(n: nat): (r: nat)
    ensures r >= 1
  {
    if n == 0 then 1 else 2 * Pow2(n - 1)
  }

  /** Bitwise and of two words. */
  function And16(x: Word, y: Word): Word {
    AndBits(x, y)
  }

  /** Bitwise or of two words. */
  function Or16(x: Word, y: Word): Word {
    Pow2Word();
    OrBelow(x, y, 16);
    OrBits(x, y)
  }

  lemma Pow2Word()
    ensures Pow2(16) == WordCount
  {
    assert Pow2(4) == 16;
    assert Pow2(8) == 256;
    assert Pow2(12) == 4096;
  }

  lemma {:induction false} OrBelow(x: nat, y: nat, n: nat)
    requires x < Pow2(n) && y < Pow2(n)
    ensures OrBits(x, y) < Pow2(n)
  {
    if x > 0 && y > 0 {
      OrBelow(x / 2, y / 2, n - 1);
    }
  }

  datatype Machine = Machine(a: Word, d: Word, ram: map<Word, Word>)

  /** A memory cell; cells never written read as 0. */
  function Mem(ram: map<Word, Word>, addr: Word): Word {
    if addr in ram then ram[addr] else 0
  }

  /** The value the assembler gives a symbol; symbols it does not know read as 0. */
  function Lookup(env: map<string, Word>, s: string): Word {
    if s in env then env[s] else 0
  }

  /** The VM's pointer registers SP, LCL, ARG, THIS and THAT are cells 0 to 4. */
  predicate Pointers(env: map<string, Word>) {
    && Lookup(env, "SP") == 0 && Lookup(env, "LCL") == 1 && Lookup(env, "ARG") == 2
    && Lookup(env, "THIS") == 3 && Lookup(env, "THAT") == 4
  }

  /** The predefined symbols of the Hack assembly language (chapter 6). */
  predicate Standard(env: map<string, Word>) {
    && Pointers(env)
    && forall k: nat :: k < 16 ==> Lookup(env, "R" + NatStr(k)) == k
  }

  function Eval(c: Comp, a: Word, d: Word, m: Word): Word {
    match c
    case Zero => 0
    case MinusOne => W(-1)
    case RegA => a
    case RegD => d
    case RegM => m
    case NotM => W(-1 - m)
    case NegM => W(0 - m as int)
    case MMinusOne => W(m - 1)
    case MPlusOne => W(m + 1)
    case MPlusD => W(m + d)
    case MMinusD => W(m - d)
    case MOrD => Logic(false, m, d)
    case MAndD => Logic(true, m, d)
    case DPlusM => W(d + m)
    case DMinusA => W(d - a)
  }

  /** The two bitwise computations: and when `conj` holds, or otherwise. */
  function Logic(conj: bool, x: Word, y: Word): Word {
    if conj then And16(x, y) else Or16(x, y)
  }

  /** Whether a jump with condition j is taken on the computed value v. */
  predicate Taken(j: Jump, v: Word) {
    match j
    case NoJump => false
    case JEQ => v == 0
    case JGT => Signed(v) > 0
    case JLT => Signed(v) < 0
    case JNE => v != 0
    case JMP => true
  }

  /** The outcome of running straight-line code: the machine, and the target of a taken jump. */
  datatype Run = Run(m: Machine, target: Option<Word>)

  /**
   * One instruction. A computation reads A, D and RAM[A] before it writes
   * any destination; M is written at the old A. A taken jump goes to the
   * old A as well: the Hack CPU loads its program counter from the A
   * register during the same cycle in which the destinations are written,
   * so `A=M;JMP` jumps to where A pointed, not to the value it loads.
   */
  function Step(i: Instr, m: Machine, env: map<string, Word>): Run {
    match i
    case AtNum(n) => Run(m.(a := W(n)), None)
    case AtSym(s) => Run(m.(a := Lookup(env, s)), None)
    case Declare(_) => Run(m, None)
    case Compute(dest, c, j) =>
      var v := Eval(c, m.a, m.d, Mem(m.ram, m.a));
      var ram := if dest == DestM || dest == DestAM then m.ram[m.a := v] else m.ram;
      var a := if dest == DestA || dest == DestAM then v else m.a;
      var d := if dest == DestD then v else m.d;
      var m' := Machine(a, d, ram);
      Run(m', if Taken(j, v) then Some(m.a) else None)
  }

  /** Runs a program from its first instruction until its end or the first taken jump. */
  function Exec(p: seq<Instr>, m: Machine, env: map<string, Word>): (r: Run)
    ensures p == [] ==> r == Run(m, None)
  {
    if p == [] then Run(m, None)
    else
      var r := Step(p[0], m, env);
      if r.target.Some? then r else Exec(p[1..], r.m, env)
  }

  /** Running p then q is running p, and then, unless p jumped away, q. */
  lemma {:induction false} ExecAppend(p: seq<Instr>, q: seq<Instr>, m: Machine, env: map<string, Word>)
    ensures Exec(p + q, m, env) ==
      var r := Exec(p, m, env);
      if r.target.Some? then r else Exec(q, r.m, env)
  {
    if p == [] {
      assert p + q == q;
    } else {
      assert (p + q)[0] == p[0];
      assert (p + q)[1..] == p[1..] + q;
      var r := Step(p[0], m, env);
      if r.target.None? {
        ExecAppend(p[1..], q, r.m, env);
      }
    }
  }

  /** A program of one instruction is one step. */
  lemma ExecOne(i: Instr, m: Machine, env: map<string, Word>)
    ensures Exec([i], m, env) == Step(i, m, env)
  {
    assert [i][1..] == [];
  }

  /** Running an instruction in front of a program. */
  lemma ExecCons(i: Instr, q: seq<Instr>, m: Machine, env: map<string, Word>)
    ensures Exec([i] + q, m, env) ==
      var r := Step(i, m, env);
      if r.target.Some? then r else Exec(q, r.m, env)
  {
    assert ([i] + q)[0] == i;
    assert ([i] + q)[1..] == q;
  }
}
