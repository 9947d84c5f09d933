/**
 * What the emitted templates do to the Hack machine: the stack effects
 * the comments of vm_translator.cpp and 07/vm_translator.cpp describe
 * ("read value", "write to stack", "increment SP", "decrement SP and read
 * from stack", the call frame and its restoration), stated on the
 * interpreter of module Hack.
 */
module VmStackEffects {
  import opened Text
  import opened Hack
  import opened VmCode

  // ---------------------------------------------------------------------
  // Arithmetic on words
  // ---------------------------------------------------------------------

  lemma WAddLeft(x: int, y: int)
    ensures W(W(x) + y) == W(x + y)
  {
  }

  lemma WSubLeft(x: int, y: int)
    ensures W(x - W(y)) == W(x - y)
  {
    var q := y / WordCount;
    assert W(y) == y - q * WordCount;
    assert x - W(y) == (x - y) + q * WordCount;
  }

  lemma WSmall(x: int)
    requires 0 <= x < WordCount
    ensures W(x) == x
  {
  }

  // ---------------------------------------------------------------------
  // Symbols
  // ---------------------------------------------------------------------

  /** Under the predefined symbols, R13 names cell 13. */
  lemma R13Cell(env: map<string, Word>)
    requires Standard(env)
    ensures Lookup(env, "R13") == 13
  {
    assert NatStr(13) == "13";
    assert "R" + NatStr(13) == "R13";
  }

  /** The cell the code of `seg i` points A at, read on machine m. */
  function Target(dialect: Dialect, filename: string, seg: string, i: nat, m: Machine, env: map<string, Word>): Word
    requires KnownSegment(seg)
  {
    match SegmentBase(seg)
    case Some(base) => W(i + Mem(m.ram, Lookup(env, base)))
    case None =>
      if seg == "static" then Lookup(env, StaticSymbol(dialect, filename, i))
      else if seg == "pointer" then Lookup(env, "R" + NatStr(3 + i))
      else Lookup(env, "R" + NatStr(5 + i))
  }

  /**
   * argument, local, this and that are their base register plus the
   * index; pointer i is R(3+i) and temp i is R(5+i) under the predefined
   * symbols; static i is the module's own symbol.
   */
  lemma TargetOfSegment(dialect: Dialect, filename: string, seg: string, i: nat, m: Machine, env: map<string, Word>)
    requires i < AddressLimit
    requires Standard(env) && KnownSegment(seg)
    ensures seg == "argument" ==> Target(dialect, filename, seg, i, m, env) == W(Mem(m.ram, 2) + i)
    ensures seg == "local" ==> Target(dialect, filename, seg, i, m, env) == W(Mem(m.ram, 1) + i)
    ensures seg == "this" ==> Target(dialect, filename, seg, i, m, env) == W(Mem(m.ram, 3) + i)
    ensures seg == "that" ==> Target(dialect, filename, seg, i, m, env) == W(Mem(m.ram, 4) + i)
    ensures seg == "pointer" && 3 + i < 16 ==> Target(dialect, filename, seg, i, m, env) == 3 + i
    ensures seg == "temp" && 5 + i < 16 ==> Target(dialect, filename, seg, i, m, env) == 5 + i
    ensures seg == "static" ==>
      Target(dialect, filename, seg, i, m, env) == Lookup(env, StaticSymbol(dialect, filename, i))
  {
  }

  /** `getAddress` leaves the target in A and changes no memory. */
  lemma {:induction false} AddressEffect(dialect: Dialect, filename: string, seg: string, i: nat, m: Machine, env: map<string, Word>)
    requires i < AddressLimit
    requires KnownSegment(seg)
    ensures var r := Exec(AddressCode(dialect, filename, seg, i), m, env);
      r.target.None? && r.m.ram == m.ram && r.m.a == Target(dialect, filename, seg, i, m, env)
  {
    var p := AddressCode(dialect, filename, seg, i);
    match SegmentBase(seg)
    case Some(base) =>
      BaseAddressEffect(base, i, m, env);
    case None =>
      ExecOne(p[0], m, env);
  }

  /** "@i", "D=A", "@base", "A=D+M": A := i + RAM[base], memory unchanged. */
  lemma {:induction false} BaseAddressEffect(base: string, i: nat, m: Machine, env: map<string, Word>)
    requires i < AddressLimit
    ensures var r := Exec([AtNum(i), Set(DestD, RegA), AtSym(base), Set(DestA, DPlusM)], m, env);
      r.target.None? && r.m.ram == m.ram && r.m.a == W(i + Mem(m.ram, Lookup(env, base)))
  {
    var p := [AtNum(i), Set(DestD, RegA), AtSym(base), Set(DestA, DPlusM)];
    var m1 := m.(a := W(i));
    assert Exec(p, m, env) == Exec(p[1..], m1, env);
    var m2 := m1.(d := W(i));
    assert Exec(p[1..], m1, env) == Exec(p[2..], m2, env);
    var m3 := m2.(a := Lookup(env, base));
    assert Exec(p[2..], m2, env) == Exec(p[3..], m3, env);
    WAddLeft(i, Mem(m.ram, Lookup(env, base)));
    var m4 := m3.(a := W(i + Mem(m.ram, Lookup(env, base))));
    assert Exec(p[3..], m3, env) == Exec(p[4..], m4, env);
    assert p[4..] == [];
  }

  /** The value push reads: the index itself for constant, else the target cell. */
  function PushValue(dialect: Dialect, filename: string, seg: string, i: nat, m: Machine, env: map<string, Word>): Word
    requires seg == "constant" || KnownSegment(seg)
  {
    if seg == "constant" then W(i) else Mem(m.ram, Target(dialect, filename, seg, i, m, env))
  }

  /** "write to stack", "increment SP": RAM[SP] := D, then SP := SP + 1. */
  lemma {:induction false} PushTailEffect(m: Machine, env: map<string, Word>)
    requires Lookup(env, "SP") == 0
    ensures var sp := Mem(m.ram, 0);
      var ram1 := m.ram[sp := m.d];
      var r := Exec([AtSym("SP"), Set(DestA, RegM), Set(DestM, RegD), AtSym("SP"), Set(DestM, MPlusOne)], m, env);
      r.target.None? && r.m.ram == ram1[0 := W(Mem(ram1, 0) + 1)]
  {
    var p := [AtSym("SP"), Set(DestA, RegM), Set(DestM, RegD), AtSym("SP"), Set(DestM, MPlusOne)];
    var sp := Mem(m.ram, 0);
    var ram1 := m.ram[sp := m.d];
    var m1 := m.(a := 0);
    assert Exec(p, m, env) == Exec(p[1..], m1, env);
    var m2 := m1.(a := sp);
    assert Exec(p[1..], m1, env) == Exec(p[2..], m2, env);
    var m3 := m2.(ram := ram1);
    assert Exec(p[2..], m2, env) == Exec(p[3..], m3, env);
    var m4 := m3.(a := 0);
    assert Exec(p[3..], m3, env) == Exec(p[4..], m4, env);
    var m5 := m4.(ram := ram1[0 := W(Mem(ram1, 0) + 1)]);
    assert Exec(p[4..], m4, env) == Exec(p[5..], m5, env);
    assert p[5..] == [];
  }

  /**
   * Push: the value is written at the old SP and SP ends one higher
   * (vm_translator.cpp:195-214; 07/vm_translator.cpp:181-199). Only when
   * SP itself points at cell 0 do the two writes meet.
   */
  lemma {:induction false} PushEffect(dialect: Dialect, filename: string, seg: string, i: nat, m: Machine, env: map<string, Word>)
    requires i < AddressLimit
    requires Lookup(env, "SP") == 0
    requires seg == "constant" || KnownSegment(seg)
    ensures var sp := Mem(m.ram, 0);
      var v := PushValue(dialect, filename, seg, i, m, env);
      var r := Exec(PushCode(dialect, filename, seg, i), m, env);
      && r.target.None?
      && r.m.ram == m.ram[sp := v][0 := W(Mem(m.ram[sp := v], 0) + 1)]
      && (sp != 0 ==> r.m.ram == m.ram[sp := v][0 := W(sp + 1)])
  {
    if seg == "constant" {
      PushConstantEffect(dialect, filename, seg, i, m, env);
    } else {
      PushSegmentEffect(dialect, filename, seg, i, m, env);
    }
  }

  /** `push constant i` writes i itself at the old SP and raises SP by one. */
  lemma {:induction false} PushConstantEffect(dialect: Dialect, filename: string, seg: string, i: nat, m: Machine, env: map<string, Word>)
    requires i < AddressLimit
    requires Lookup(env, "SP") == 0 && seg == "constant"
    ensures var sp := Mem(m.ram, 0);
      var v := PushValue(dialect, filename, seg, i, m, env);
      var r := Exec(PushCode(dialect, filename, seg, i), m, env);
      && v == i
      && r.target.None?
      && r.m.ram == m.ram[sp := v][0 := W(Mem(m.ram[sp := v], 0) + 1)]
      && (sp != 0 ==> r.m.ram == m.ram[sp := v][0 := W(sp + 1)])
  {
    var tail := [AtSym("SP"), Set(DestA, RegM), Set(DestM, RegD), AtSym("SP"), Set(DestM, MPlusOne)];
    var head := [AtNum(i), Set(DestD, RegA)];
    ExecAppend(head, tail, m, env);
    var m1 := m.(a := W(i));
    assert Exec(head, m, env) == Exec(head[1..], m1, env);
    var m2 := m1.(d := W(i));
    assert Exec(head[1..], m1, env) == Exec(head[2..], m2, env);
    assert head[2..] == [];
    PushTailEffect(m2, env);
    WSmall(i);
  }

  lemma {:induction false} PushSegmentEffect(dialect: Dialect, filename: string, seg: string, i: nat, m: Machine, env: map<string, Word>)
    requires i < AddressLimit
    requires Lookup(env, "SP") == 0 && seg != "constant" && KnownSegment(seg)
    ensures var sp := Mem(m.ram, 0);
      var v := PushValue(dialect, filename, seg, i, m, env);
      var r := Exec(PushCode(dialect, filename, seg, i), m, env);
      && r.target.None?
      && r.m.ram == m.ram[sp := v][0 := W(Mem(m.ram[sp := v], 0) + 1)]
      && (sp != 0 ==> r.m.ram == m.ram[sp := v][0 := W(sp + 1)])
  {
    var tail := [AtSym("SP"), Set(DestA, RegM), Set(DestM, RegD), AtSym("SP"), Set(DestM, MPlusOne)];
    var v := PushValue(dialect, filename, seg, i, m, env);
    var addr := AddressCode(dialect, filename, seg, i);
    var head := addr + [Set(DestD, RegM)];
    ExecAppend(head, tail, m, env);
    ExecAppend(addr, [Set(DestD, RegM)], m, env);
    AddressEffect(dialect, filename, seg, i, m, env);
    var m1 := Exec(addr, m, env).m;
    ExecOne(Set(DestD, RegM), m1, env);
    PushTailEffect(m1.(d := v), env);
  }

  /** "decrement SP and read from stack": SP := SP - 1, then A points at the old top. */
  lemma {:induction false} PopTopEffect(dialect: Dialect, m: Machine, env: map<string, Word>)
    requires Lookup(env, "SP") == 0
    ensures var top := W(Mem(m.ram, 0) - 1);
      var r := Exec(PopTop(dialect), m, env);
      r.target.None? && r.m.ram == m.ram[0 := top] && r.m.a == top && r.m.d == m.d
  {
    var p := PopTop(dialect);
    var top := W(Mem(m.ram, 0) - 1);
    var m1 := m.(a := 0);
    assert Exec(p, m, env) == Exec(p[1..], m1, env);
    match dialect
    case Full =>
      var m2 := Machine(top, m.d, m.ram[0 := top]);
      assert Exec(p[1..], m1, env) == Exec(p[2..], m2, env);
      assert p[2..] == [];
    case Early =>
      var m2 := m1.(ram := m.ram[0 := top]);
      assert Exec(p[1..], m1, env) == Exec(p[2..], m2, env);
      var m3 := m2.(a := top);
      assert Exec(p[2..], m2, env) == Exec(p[3..], m3, env);
      assert p[3..] == [];
  }

  /** Pop's first half: D := A, then the scratch cell := D. */
  lemma {:induction false} PopSaveEffect(dialect: Dialect, m: Machine, env: map<string, Word>)
    ensures var s := Lookup(env, Scratch(dialect));
      Exec([Set(DestD, RegA), AtSym(Scratch(dialect)), Set(DestM, RegD)], m, env) ==
        Run(Machine(s, m.a, m.ram[s := m.a]), None)
  {
    var p := [Set(DestD, RegA), AtSym(Scratch(dialect)), Set(DestM, RegD)];
    var s := Lookup(env, Scratch(dialect));
    var m1 := m.(d := m.a);
    assert Exec(p, m, env) == Exec(p[1..], m1, env);
    var m2 := m1.(a := s);
    assert Exec(p[1..], m1, env) == Exec(p[2..], m2, env);
    var m3 := m2.(ram := m.ram[s := m.a]);
    assert Exec(p[2..], m2, env) == Exec(p[3..], m3, env);
    assert p[3..] == [];
  }

  /** Pop's last half: D := M, then RAM[scratch] := D. */
  lemma {:induction false} PopStoreEffect(dialect: Dialect, m: Machine, env: map<string, Word>)
    ensures var s := Lookup(env, Scratch(dialect));
      var v := Mem(m.ram, m.a);
      var r := Exec([Set(DestD, RegM), AtSym(Scratch(dialect)), Set(DestA, RegM), Set(DestM, RegD)], m, env);
      r.target.None? && r.m.ram == m.ram[Mem(m.ram, s) := v]
  {
    var p := [Set(DestD, RegM), AtSym(Scratch(dialect)), Set(DestA, RegM), Set(DestM, RegD)];
    var s := Lookup(env, Scratch(dialect));
    var v := Mem(m.ram, m.a);
    var m1 := m.(d := v);
    assert Exec(p, m, env) == Exec(p[1..], m1, env);
    var m2 := m1.(a := s);
    assert Exec(p[1..], m1, env) == Exec(p[2..], m2, env);
    var m3 := m2.(a := Mem(m.ram, s));
    assert Exec(p[2..], m2, env) == Exec(p[3..], m3, env);
    var m4 := m3.(ram := m.ram[Mem(m.ram, s) := v]);
    assert Exec(p[3..], m3, env) == Exec(p[4..], m4, env);
    assert p[4..] == [];
  }

  /**
   * Pop: the target address goes to the scratch cell (R13, or the
   * variable `address` of the early translator) first; then SP is
   * decremented once and the old top is stored at the address the
   * scratch cell holds (vm_translator.cpp:215-230; 07/vm_translator.cpp:200-217).
   */
  lemma {:induction false} PopEffect(dialect: Dialect, filename: string, seg: string, i: nat, m: Machine, env: map<string, Word>)
    requires i < AddressLimit
    requires Lookup(env, "SP") == 0 && KnownSegment(seg)
    ensures var t := Target(dialect, filename, seg, i, m, env);
      var s := Lookup(env, Scratch(dialect));
      var ram1 := m.ram[s := t];
      var top := W(Mem(ram1, 0) - 1);
      var ram2 := ram1[0 := top];
      var r := Exec(PopCode(dialect, filename, seg, i), m, env);
      r.target.None? && r.m.ram == ram2[Mem(ram2, s) := Mem(ram2, top)]
  {
    var addr := AddressCode(dialect, filename, seg, i);
    var save := [Set(DestD, RegA), AtSym(Scratch(dialect)), Set(DestM, RegD)];
    var tail := PopTop(dialect) + [Set(DestD, RegM), AtSym(Scratch(dialect)), Set(DestA, RegM), Set(DestM, RegD)];
    assert PopCode(dialect, filename, seg, i) == addr + (save + tail);
    ExecAppend(addr, save + tail, m, env);
    AddressEffect(dialect, filename, seg, i, m, env);
    var m1 := Exec(addr, m, env).m;
    ExecAppend(save, tail, m1, env);
    PopSaveEffect(dialect, m1, env);
    var t := Target(dialect, filename, seg, i, m, env);
    var s := Lookup(env, Scratch(dialect));
    var m2 := Machine(s, t, m.ram[s := t]);
    assert Exec(save, m1, env) == Run(m2, None);
    PopTailEffect(dialect, m2, env);
  }

  /** Pop after the target is saved: SP := SP - 1, then RAM[RAM[scratch]] := the old top. */
  lemma {:induction false} PopTailEffect(dialect: Dialect, m: Machine, env: map<string, Word>)
    requires Lookup(env, "SP") == 0
    ensures var s := Lookup(env, Scratch(dialect));
      var top := W(Mem(m.ram, 0) - 1);
      var ram2 := m.ram[0 := top];
      var r := Exec(PopTop(dialect) + [Set(DestD, RegM), AtSym(Scratch(dialect)), Set(DestA, RegM), Set(DestM, RegD)], m, env);
      r.target.None? && r.m.ram == ram2[Mem(ram2, s) := Mem(ram2, top)]
  {
    var pt := PopTop(dialect);
    var store := [Set(DestD, RegM), AtSym(Scratch(dialect)), Set(DestA, RegM), Set(DestM, RegD)];
    ExecAppend(pt, store, m, env);
    PopTopEffect(dialect, m, env);
    PopStoreEffect(dialect, Exec(pt, m, env).m, env);
  }

  /**
   * In the usual layout (the stack above cell 15, the scratch cell away
   * from the stack) pop moves the top of the stack to its target, SP
   * ends one lower and the scratch cell holds the target.
   */
  lemma PopMovesTop(dialect: Dialect, filename: string, seg: string, i: nat, m: Machine, env: map<string, Word>)
    requires i < AddressLimit
    requires Lookup(env, "SP") == 0 && KnownSegment(seg)
    requires var s := Lookup(env, Scratch(dialect)); var sp := Mem(m.ram, 0);
      s != 0 && 16 < sp && s != sp - 1
    ensures var t := Target(dialect, filename, seg, i, m, env);
      var s := Lookup(env, Scratch(dialect)); var sp := Mem(m.ram, 0);
      var r := Exec(PopCode(dialect, filename, seg, i), m, env);
      && r.target.None?
      && r.m.ram == m.ram[s := t][0 := sp - 1][t := Mem(m.ram, sp - 1)]
  {
    PopEffect(dialect, filename, seg, i, m, env);
  }

  /**
   * `push constant c` followed by `pop seg i` stores c at the target of
   * `seg i`, and SP is back where it started.
   */
  lemma PushPopConstant(dialect: Dialect, filename: string, seg: string, c: nat, i: nat, m: Machine, env: map<string, Word>)
    requires c < AddressLimit && i < AddressLimit
    requires Standard(env) && KnownSegment(seg)
    requires var s := Lookup(env, Scratch(dialect)); var sp := Mem(m.ram, 0);
      s != 0 && 16 <= sp < WordCount - 1 && s != sp && 5 <= s
    ensures var r := Exec(PushCode(dialect, filename, "constant", c) + PopCode(dialect, filename, seg, i), m, env);
      var t := Target(dialect, filename, seg, i, m, env);
      && r.target.None? && Mem(r.m.ram, t) == W(c)
      && (t != 0 ==> Mem(r.m.ram, 0) == Mem(m.ram, 0))
  {
    var sp := Mem(m.ram, 0);
    var push := PushCode(dialect, filename, "constant", c);
    ExecAppend(push, PopCode(dialect, filename, seg, i), m, env);
    PushEffect(dialect, filename, "constant", c, m, env);
    var m1 := Exec(push, m, env).m;
    assert m1.ram == m.ram[sp := W(c)][0 := sp + 1];
    assert Target(dialect, filename, seg, i, m1, env) == Target(dialect, filename, seg, i, m, env);
    PopMovesTop(dialect, filename, seg, i, m1, env);
  }

  // ---------------------------------------------------------------------
  // Arithmetic
  // ---------------------------------------------------------------------

  /** The word add, sub, or and and leave: x is the second operand from the top, y the top. */
  function BinaryValue(op: string, x: Word, y: Word): Word
    requires !IsUnary(op) && !IsComparison(op)
  {
    if op == "add" then W(x + y)
    else if op == "sub" then W(x - y)
    else if op == "or" then Or16(x, y)
    else And16(x, y)
  }

  /** One instruction that computes into M, leaves A and does not jump. */
  lemma WriteM(c: Comp, m: Machine, env: map<string, Word>)
    ensures Exec([Set(DestM, c)], m, env) ==
      Run(m.(ram := m.ram[m.a := Eval(c, m.a, m.d, Mem(m.ram, m.a))]), None)
  {
    ExecOne(Set(DestM, c), m, env);
  }

  /** "@SP", "A=M-1": A points at the top of the stack. */
  lemma {:induction false} TopEffect(m: Machine, env: map<string, Word>)
    requires Lookup(env, "SP") == 0
    ensures Exec([AtSym("SP"), Set(DestA, MMinusOne)], m, env) ==
      Run(m.(a := W(Mem(m.ram, 0) - 1)), None)
  {
    var p := [AtSym("SP"), Set(DestA, MMinusOne)];
    assert Exec(p, m, env) == Exec(p[1..], m.(a := 0), env);
    assert Exec(p[1..], m.(a := 0), env) == Exec(p[2..], m.(a := W(Mem(m.ram, 0) - 1)), env);
    assert p[2..] == [];
  }

  /** not and neg rewrite the top of the stack in place and leave SP alone (vm_translator.cpp:143-154). */
  lemma UnaryEffect(dialect: Dialect, op: string, n: nat, m: Machine, env: map<string, Word>)
    requires Lookup(env, "SP") == 0 && IsUnary(op)
    ensures var top := W(Mem(m.ram, 0) - 1);
      var x := Mem(m.ram, top);
      var r := Exec(ArithmeticCode(dialect, op, n), m, env);
      && r.target.None?
      && r.m.ram == m.ram[top := if op == "not" then W(-1 - x) else W(0 - x)]
  {
    var c := if op == "not" then NotM else NegM;
    var p := [AtSym("SP"), Set(DestA, MMinusOne)];
    assert ArithmeticCode(dialect, op, n) == p + [Set(DestM, c)];
    ExecAppend(p, [Set(DestM, c)], m, env);
    TopEffect(m, env);
    WriteM(c, Exec(p, m, env).m, env);
  }

  /** "@SP", pop, "D=M", "@SP", "A=M-1": D holds y, A points at x, SP is one lower. */
  lemma {:induction false} OperandsEffect(dialect: Dialect, m: Machine, env: map<string, Word>)
    requires Lookup(env, "SP") == 0
    requires Mem(m.ram, 0) != 1
    ensures var sp: int := Mem(m.ram, 0);
      var r := Exec(OperandsCode(dialect), m, env);
      r == Run(Machine(W(sp - 2), Mem(m.ram, W(sp - 1)), m.ram[0 := W(sp - 1)]), None)
  {
    var sp: int := Mem(m.ram, 0);
    var pt := PopTop(dialect);
    var rest := [AtSym("SP"), Set(DestA, MMinusOne)];
    ExecAppend(pt + [Set(DestD, RegM)], rest, m, env);
    ExecAppend(pt, [Set(DestD, RegM)], m, env);
    PopTopEffect(dialect, m, env);
    var top := W(sp - 1);
    var ram1 := m.ram[0 := top];
    WBelow(sp, 1);
    assert top != 0;
    var m1 := Machine(top, m.d, ram1);
    assert Exec(pt, m, env) == Run(m1, None);
    ExecOne(Set(DestD, RegM), m1, env);
    var m2 := Machine(top, Mem(m.ram, top), ram1);
    assert Exec(pt + [Set(DestD, RegM)], m, env) == Run(m2, None);
    TopEffect(m2, env);
    WAddLeft(sp - 1, -1);
    assert W(Mem(ram1, 0) - 1) == W(sp - 2);
  }

  /**
   * add, sub, or, and: SP is decremented exactly once and RAM[SP-1] is
   * overwritten with x op y (vm_translator.cpp:157-170;
   * 07/vm_translator.cpp:143-156). SP at 1 or 2 would make the operands
   * alias the stack pointer.
   */
  lemma {:induction false} BinaryEffect(dialect: Dialect, op: string, n: nat, m: Machine, env: map<string, Word>)
    requires Lookup(env, "SP") == 0 && !IsUnary(op) && !IsComparison(op)
    requires Mem(m.ram, 0) != 1 && Mem(m.ram, 0) != 2
    ensures var sp: int := Mem(m.ram, 0);
      var x := Mem(m.ram, W(sp - 2));
      var y := Mem(m.ram, W(sp - 1));
      var r := Exec(ArithmeticCode(dialect, op, n), m, env);
      r.target.None? && r.m.ram == m.ram[0 := W(sp - 1)][W(sp - 2) := BinaryValue(op, x, y)]
  {
    var sp: int := Mem(m.ram, 0);
    var x := Mem(m.ram, W(sp - 2));
    var y := Mem(m.ram, W(sp - 1));
    var head := OperandsCode(dialect);
    var c := BinaryComp(op);
    assert ArithmeticCode(dialect, op, n) == head + [Set(DestM, c)];
    ExecAppend(head, [Set(DestM, c)], m, env);
    OperandsEffect(dialect, m, env);
    var ram1 := m.ram[0 := W(sp - 1)];
    var m1 := Machine(W(sp - 2), y, ram1);
    WBelow(sp, 2);
    assert Mem(ram1, W(sp - 2)) == x;
    BinaryEval(op, W(sp - 2), x, y);
    WriteM(c, m1, env);
  }

  /** A word minus a small k, wrapping below 0. */
  lemma WBelow(w: Word, k: nat)
    requires k <= w || k <= WordCount
    ensures W(w - k) == if k <= w then w - k else w - k + WordCount
  {
  }

  /** The computation add, sub, or and and write, on x in M and y in D. */
  lemma BinaryEval(op: string, a: Word, x: Word, y: Word)
    requires !IsUnary(op) && !IsComparison(op)
    ensures Eval(BinaryComp(op), a, y, x) == BinaryValue(op, x, y)
  {
  }

  /** The comparison a word difference passes: eq on zero, gt on positive, lt on negative. */
  predicate CompareHolds(op: string, diff: Word) {
    Taken(CompareJump(op), diff)
  }

  /** The test: D := x - y, jump to TRUEn exactly when the comparison holds. */
  lemma {:induction false} CompareTestEffect(op: string, n: nat, m: Machine, env: map<string, Word>)
    ensures var diff := W(Mem(m.ram, m.a) - m.d);
      var r := Exec(CompareTest(op, n), m, env);
      r.m.ram == m.ram &&
      r.target == if CompareHolds(op, diff) then Some(Lookup(env, TrueLabel(n))) else None
  {
    var p := CompareTest(op, n);
    var diff := W(Mem(m.ram, m.a) - m.d);
    var m1 := m.(d := diff);
    assert Exec(p, m, env) == Exec(p[1..], m1, env);
    var m2 := m1.(a := Lookup(env, TrueLabel(n)));
    assert Exec(p[1..], m1, env) == Exec(p[2..], m2, env);
    assert Exec(p[2..], m2, env) == Run(m2, if CompareHolds(op, diff) then Some(m2.a) else None);
  }

  /** The false branch writes 0 over the top and jumps to ENDn. */
  lemma {:induction false} FalseBranchEffect(n: nat, m: Machine, env: map<string, Word>)
    requires Lookup(env, "SP") == 0
    ensures var r := Exec(FalseBranch(n), m, env);
      r.target == Some(Lookup(env, EndLabel(n))) && r.m.ram == m.ram[W(Mem(m.ram, 0) - 1) := 0]
  {
    var p := FalseBranch(n);
    var top := W(Mem(m.ram, 0) - 1);
    assert p == [AtSym("SP"), Set(DestA, MMinusOne)] + [Set(DestM, Zero)] + [AtSym(EndLabel(n)), Goto(Zero, JMP)];
    ExecAppend([AtSym("SP"), Set(DestA, MMinusOne)] + [Set(DestM, Zero)], [AtSym(EndLabel(n)), Goto(Zero, JMP)], m, env);
    ExecAppend([AtSym("SP"), Set(DestA, MMinusOne)], [Set(DestM, Zero)], m, env);
    TopEffect(m, env);
    WriteM(Zero, m.(a := top), env);
    var m1 := m.(a := top, ram := m.ram[top := 0]);
    var q := [AtSym(EndLabel(n)), Goto(Zero, JMP)];
    var m2 := m1.(a := Lookup(env, EndLabel(n)));
    assert Exec(q, m1, env) == Exec(q[1..], m2, env);
  }

  /** The comparison body, from A at x and D holding y. */
  lemma {:induction false} CompareBodyEffect(op: string, n: nat, m: Machine, env: map<string, Word>)
    requires Lookup(env, "SP") == 0
    ensures var diff := W(Mem(m.ram, m.a) - m.d);
      var r := Exec(CompareCode(op, n), m, env);
      if CompareHolds(op, diff) then
        r.target == Some(Lookup(env, TrueLabel(n))) && r.m.ram == m.ram
      else
        r.target == Some(Lookup(env, EndLabel(n))) && r.m.ram == m.ram[W(Mem(m.ram, 0) - 1) := 0]
  {
    ExecAppend(CompareTest(op, n) + FalseBranch(n), TrueBranch(n), m, env);
    ExecAppend(CompareTest(op, n), FalseBranch(n), m, env);
    CompareTestEffect(op, n, m, env);
    var m2 := Exec(CompareTest(op, n), m, env).m;
    if !CompareHolds(op, W(Mem(m.ram, m.a) - m.d)) {
      FalseBranchEffect(n, m2, env);
    }
  }

  /**
   * The outcome of a comparison of x with y, on memory ram whose top of
   * stack is top: when it holds, a jump to TRUEn with ram unchanged;
   * otherwise false (0) at top and a jump to ENDn.
   */
  ghost predicate Compared(op: string, n: nat, x: Word, y: Word, ram: map<Word, Word>, top: Word, r: Run, env: map<string, Word>) {
    if CompareHolds(op, W(x - y)) then
      r.target == Some(Lookup(env, TrueLabel(n))) && r.m.ram == ram
    else
      r.target == Some(Lookup(env, EndLabel(n))) && r.m.ram == ram[top := 0]
  }

  /**
   * A comparison pops y, computes D := x - y in 16 bits and jumps to TRUEn
   * exactly when the comparison holds (vm_translator.cpp:172-180).
   * Otherwise it writes false (0) over x and jumps to ENDn.
   */
  lemma {:induction false} CompareEffect(dialect: Dialect, op: string, n: nat, m: Machine, env: map<string, Word>)
    requires Lookup(env, "SP") == 0 && IsComparison(op)
    requires Mem(m.ram, 0) != 1 && Mem(m.ram, 0) != 2
    ensures var sp: int := Mem(m.ram, 0);
      Compared(op, n, Mem(m.ram, W(sp - 2)), Mem(m.ram, W(sp - 1)), m.ram[0 := W(sp - 1)], W(sp - 2),
               Exec(ArithmeticCode(dialect, op, n), m, env), env)
  {
    var sp: int := Mem(m.ram, 0);
    var x := Mem(m.ram, W(sp - 2));
    var y := Mem(m.ram, W(sp - 1));
    OperandsThenCompare(dialect, op, n, m, env);
    var ram1 := m.ram[0 := W(sp - 1)];
    var m1 := Machine(W(sp - 2), y, ram1);
    CompareAddresses(sp);
    assert Mem(ram1, 0) == W(sp - 1);
    assert Mem(ram1, m1.a) == x;
    CompareTransfer(op, n, m1, env, x, y, W(sp - 2));
  }

  /** The cells of the two operands, below a stack pointer that is neither 1 nor 2. */
  lemma CompareAddresses(sp: Word)
    requires sp != 1 && sp != 2
    ensures W(sp - 2) != 0 && W(W(sp - 1) - 1) == W(sp - 2)
  {
    WBelow(sp, 2);
    WBelow(sp, 1);
    if sp == 0 {
      assert W(sp - 1) == 0xFFFF;
    } else {
      assert W(sp - 1) == sp - 1;
    }
  }

  /** The comparison body on operands x (at A) and y (in D), with the top of the stack at top. */
  lemma {:induction false} CompareTransfer(op: string, n: nat, m: Machine, env: map<string, Word>, x: Word, y: Word, top: Word)
    requires Lookup(env, "SP") == 0
    requires Mem(m.ram, m.a) == x && m.d == y && W(Mem(m.ram, 0) - 1) == top
    ensures Compared(op, n, x, y, m.ram, top, Exec(CompareCode(op, n), m, env), env)
  {
    CompareBodyEffect(op, n, m, env);
  }

  /** A comparison pops y into D, points A at x, and runs the comparison body. */
  lemma {:induction false} OperandsThenCompare(dialect: Dialect, op: string, n: nat, m: Machine, env: map<string, Word>)
    requires Lookup(env, "SP") == 0 && IsComparison(op) && Mem(m.ram, 0) != 1
    ensures var sp: int := Mem(m.ram, 0);
      Exec(ArithmeticCode(dialect, op, n), m, env) ==
      Exec(CompareCode(op, n), Machine(W(sp - 2), Mem(m.ram, W(sp - 1)), m.ram[0 := W(sp - 1)]), env)
  {
    ExecAppend(OperandsCode(dialect), CompareCode(op, n), m, env);
    OperandsEffect(dialect, m, env);
  }

  /** The code at TRUEn writes true (-1) over the top and falls through past ENDn. */
  lemma {:induction false} TrueBranchEffect(n: nat, m: Machine, env: map<string, Word>)
    requires Lookup(env, "SP") == 0
    ensures var r := Exec(TrueBranch(n), m, env);
      r.target.None? && r.m.ram == m.ram[W(Mem(m.ram, 0) - 1) := W(-1)]
  {
    var top := W(Mem(m.ram, 0) - 1);
    var mid := [AtSym("SP"), Set(DestA, MMinusOne)];
    assert TrueBranch(n) == [Declare(TrueLabel(n))] + (mid + ([Set(DestM, MinusOne)] + [Declare(EndLabel(n))]));
    ExecCons(Declare(TrueLabel(n)), mid + ([Set(DestM, MinusOne)] + [Declare(EndLabel(n))]), m, env);
    ExecAppend(mid, [Set(DestM, MinusOne)] + [Declare(EndLabel(n))], m, env);
    TopEffect(m, env);
    var m1 := m.(a := top);
    ExecCons(Set(DestM, MinusOne), [Declare(EndLabel(n))], m1, env);
    ExecOne(Declare(EndLabel(n)), m1.(ram := m.ram[top := W(-1)]), env);
  }

  // ---------------------------------------------------------------------
  // Program flow
  // ---------------------------------------------------------------------

  /** goto jumps to `fn$label` and changes nothing else (vm_translator.cpp:237-240). */
  lemma {:induction false} GotoEffect(fn: string, name: string, m: Machine, env: map<string, Word>)
    ensures var r := Exec(GotoCode(fn, name), m, env);
      r.target == Some(Lookup(env, Scoped(fn, name))) && r.m.ram == m.ram
  {
    var p := GotoCode(fn, name);
    var m1 := m.(a := Lookup(env, Scoped(fn, name)));
    assert Exec(p, m, env) == Exec(p[1..], m1, env);
  }

  /**
   * if-goto pops once and jumps to `fn$label` exactly when the popped
   * value is not 0 (vm_translator.cpp:242-248).
   */
  lemma {:induction false} IfEffect(fn: string, name: string, m: Machine, env: map<string, Word>)
    requires Lookup(env, "SP") == 0 && Mem(m.ram, 0) != 1
    ensures var sp: int := Mem(m.ram, 0);
      var v := Mem(m.ram, W(sp - 1));
      var r := Exec(IfCode(fn, name), m, env);
      && r.m.ram == m.ram[0 := W(sp - 1)]
      && r.target == if v != 0 then Some(Lookup(env, Scoped(fn, name))) else None
  {
    var sp: int := Mem(m.ram, 0);
    var p := IfCode(fn, name);
    var top := W(sp - 1);
    var ram1 := m.ram[0 := top];
    var v := Mem(m.ram, top);
    var head := PopTop(Full) + [Set(DestD, RegM)];
    var q := [AtSym(Scoped(fn, name)), Goto(RegD, JNE)];
    assert head + q == p;
    ExecAppend(head, q, m, env);
    ExecAppend(PopTop(Full), [Set(DestD, RegM)], m, env);
    PopTopEffect(Full, m, env);
    WBelow(sp, 1);
    assert top != 0;
    var m1 := Machine(top, m.d, ram1);
    assert Exec(PopTop(Full), m, env) == Run(m1, None);
    ExecOne(Set(DestD, RegM), m1, env);
    var m2 := Machine(top, v, ram1);
    assert Exec(head, m, env) == Run(m2, None);
    var m3 := m2.(a := Lookup(env, Scoped(fn, name)));
    assert Exec(q, m2, env) == Exec(q[1..], m3, env);
    ExecOne(q[1], m3, env);
    assert q[1..] == [q[1]];
  }

  // ---------------------------------------------------------------------
  // Function calls
  // ---------------------------------------------------------------------

  /** The memory after pushing v: RAM[SP] := v and SP := SP + 1. */
  function Pushed(ram: map<Word, Word>, v: Word): map<Word, Word> {
    var sp := Mem(ram, 0);
    ram[0 := W(sp + 1)][sp := v]
  }

  /** Push D: D lands on the old top and SP moves up by one. */
  lemma {:induction false} PushDEffect(m: Machine, env: map<string, Word>)
    requires Lookup(env, "SP") == 0
    ensures var r := Exec(PushD(), m, env);
      r.target.None? && r.m.d == m.d && r.m.ram == Pushed(m.ram, m.d)
  {
    var p := PushD();
    var sp: int := Mem(m.ram, 0);
    var m1 := m.(a := 0);
    assert Exec(p, m, env) == Exec(p[1..], m1, env);
    var m2 := m1.(ram := m.ram[0 := W(sp + 1)]);
    assert Exec(p[1..], m1, env) == Exec(p[2..], m2, env);
    WAddLeft(sp + 1, -1);
    WSmall(sp);
    assert W(Mem(m2.ram, 0) - 1) == sp;
    var m3 := m2.(a := sp);
    assert Exec(p[2..], m2, env) == Exec(p[3..], m3, env);
    var m4 := m3.(ram := m2.ram[sp := m.d]);
    assert Exec(p[3..], m3, env) == Exec(p[4..], m4, env);
    assert p[4..] == [];
  }

  /** One iteration of the frame loop of `writeCall`: push the value of a register. */
  lemma {:induction false} SaveEffect(reg: string, m: Machine, env: map<string, Word>)
    requires Lookup(env, "SP") == 0
    ensures var r := Exec(SaveCode(reg), m, env);
      r.target.None? && r.m.ram == Pushed(m.ram, Mem(m.ram, Lookup(env, reg)))
  {
    var head := [AtSym(reg), Set(DestD, RegM)];
    ExecAppend(head, PushD(), m, env);
    var m1 := m.(a := Lookup(env, reg));
    assert Exec(head, m, env) == Exec(head[1..], m1, env);
    var m2 := m1.(d := Mem(m.ram, Lookup(env, reg)));
    assert Exec(head[1..], m1, env) == Exec(head[2..], m2, env);
    assert head[2..] == [];
    PushDEffect(m2, env);
  }

  /** The frame loop of `writeCall` unrolled. */
  lemma SaveAllFrame()
    ensures SaveAll(FrameRegisters) == (SaveCode("LCL") + SaveCode("ARG")) + (SaveCode("THIS") + SaveCode("THAT"))
  {
    var regs := FrameRegisters;
    assert regs[1..] == ["ARG", "THIS", "THAT"];
    assert regs[1..][1..] == ["THIS", "THAT"];
    assert regs[1..][1..][1..] == ["THAT"];
    assert regs[1..][1..][1..][1..] == [];
    assert SaveCode("THAT") + [] == SaveCode("THAT");
  }

  /** Two registers below the stack pushed one after the other. */
  lemma {:induction false} SavePairEffect(x: string, y: string, m: Machine, env: map<string, Word>)
    requires Lookup(env, "SP") == 0
    requires var sp := Mem(m.ram, 0); var cx := Lookup(env, x); var cy := Lookup(env, y);
      0 < sp && sp + 2 < WordCount && cx != 0 && cy != 0 && cx != sp && cy != sp && cy != sp + 1
    ensures var sp := Mem(m.ram, 0);
      var r := Exec(SaveCode(x) + SaveCode(y), m, env);
      && r.target.None?
      && r.m.ram == m.ram[sp := Mem(m.ram, Lookup(env, x))][sp + 1 := Mem(m.ram, Lookup(env, y))][0 := sp + 2]
  {
    var sp := Mem(m.ram, 0);
    ExecAppend(SaveCode(x), SaveCode(y), m, env);
    SaveEffect(x, m, env);
    var m1 := Exec(SaveCode(x), m, env).m;
    assert m1.ram == m.ram[0 := sp + 1][sp := Mem(m.ram, Lookup(env, x))];
    assert Mem(m1.ram, 0) == sp + 1;
    assert Mem(m1.ram, Lookup(env, y)) == Mem(m.ram, Lookup(env, y));
    SaveEffect(y, m1, env);
  }

  /** The caller's frame: LCL, ARG, THIS and THAT pushed in that order. */
  lemma {:induction false} SaveAllEffect(m: Machine, env: map<string, Word>)
    requires Pointers(env)
    requires var sp := Mem(m.ram, 0); 5 <= sp && sp + 4 < WordCount
    ensures var sp := Mem(m.ram, 0);
      var r := Exec(SaveAll(FrameRegisters), m, env);
      && r.target.None?
      && r.m.ram == m.ram[sp := Mem(m.ram, 1)][sp + 1 := Mem(m.ram, 2)][sp + 2 := Mem(m.ram, 3)][sp + 3 := Mem(m.ram, 4)][0 := sp + 4]
  {
    var sp := Mem(m.ram, 0);
    var p := SaveCode("LCL") + SaveCode("ARG");
    var q := SaveCode("THIS") + SaveCode("THAT");
    SaveAllFrame();
    ExecAppend(p, q, m, env);
    SavePairEffect("LCL", "ARG", m, env);
    var m1 := Exec(p, m, env).m;
    SavePairEffect("THIS", "THAT", m1, env);
  }

  /**
   * `call f n` pushes the return address and the caller's LCL, ARG, THIS
   * and THAT, sets ARG to SP - n - 5 and LCL to the new SP, and jumps to f
   * (vm_translator.cpp:251-285).
   */
  lemma {:induction false} CallEffect(f: string, n: nat, k: nat, m: Machine, env: map<string, Word>)
    requires n + 5 < AddressLimit
    requires Pointers(env)
    requires var sp := Mem(m.ram, 0); 5 <= sp && sp + 5 < WordCount
    ensures var sp := Mem(m.ram, 0);
      var r := Exec(CallCode(f, n, k), m, env);
      && r.target == Some(Lookup(env, f))
      && r.m.ram == m.ram[sp := Lookup(env, ReturnLabel(k))]
           [sp + 1 := Mem(m.ram, 1)][sp + 2 := Mem(m.ram, 2)][sp + 3 := Mem(m.ram, 3)][sp + 4 := Mem(m.ram, 4)]
           [0 := sp + 5][1 := sp + 5][2 := W(sp - n)]
  {
    var sp := Mem(m.ram, 0);
    var head := CallHead(k);
    var tail := CallTail(f, n, k);
    ExecAppend(head + SaveAll(FrameRegisters), tail, m, env);
    ExecAppend(head, SaveAll(FrameRegisters), m, env);
    var ret := Lookup(env, ReturnLabel(k));
    CallHeadEffect(k, m, env);
    var m3 := Exec(head, m, env).m;
    SaveAfterHead(m, m3, ret, env);
    var m4 := Exec(SaveAll(FrameRegisters), m3, env).m;
    CallTailEffect(f, n, k, m4, env);
  }

  /** The return address pushed. */
  lemma {:induction false} CallHeadEffect(k: nat, m: Machine, env: map<string, Word>)
    requires Pointers(env)
    requires var sp := Mem(m.ram, 0); 5 <= sp && sp + 5 < WordCount
    ensures var sp := Mem(m.ram, 0);
      var r := Exec(CallHead(k), m, env);
      r.target.None? && r.m.ram == m.ram[0 := sp + 1][sp := Lookup(env, ReturnLabel(k))]
  {
    var sp := Mem(m.ram, 0);
    var ret := Lookup(env, ReturnLabel(k));
    var h := [AtSym(ReturnLabel(k)), Set(DestD, RegA)];
    ExecAppend(h, PushD(), m, env);
    var m1 := m.(a := ret);
    assert Exec(h, m, env) == Exec(h[1..], m1, env);
    var m2 := m1.(d := ret);
    assert Exec(h[1..], m1, env) == Exec(h[2..], m2, env);
    assert h[2..] == [];
    PushDEffect(m2, env);
    WSmall(sp + 1);
  }

  /** The frame saved above the return address. */
  lemma {:induction false} SaveAfterHead(m: Machine, m3: Machine, ret: Word, env: map<string, Word>)
    requires Pointers(env)
    requires var sp := Mem(m.ram, 0); 5 <= sp && sp + 5 < WordCount
    requires m3.ram == m.ram[0 := Mem(m.ram, 0) + 1][Mem(m.ram, 0) := ret]
    ensures var sp := Mem(m.ram, 0);
      var r := Exec(SaveAll(FrameRegisters), m3, env);
      && r.target.None?
      && r.m.ram == m.ram[sp := ret][sp + 1 := Mem(m.ram, 1)][sp + 2 := Mem(m.ram, 2)][sp + 3 := Mem(m.ram, 3)][sp + 4 := Mem(m.ram, 4)][0 := sp + 5]
  {
    var sp := Mem(m.ram, 0);
    var ram3 := m3.ram;
    SaveAllEffect(m3, env);
    assert Mem(ram3, 0) == sp + 1;
    assert Mem(ram3, 1) == Mem(m.ram, 1) && Mem(ram3, 2) == Mem(m.ram, 2);
    assert Mem(ram3, 3) == Mem(m.ram, 3) && Mem(ram3, 4) == Mem(m.ram, 4);
    var v1, v2, v3, v4 := Mem(m.ram, 1), Mem(m.ram, 2), Mem(m.ram, 3), Mem(m.ram, 4);
    FrameUpdates(m.ram, sp, ret, v1, v2, v3, v4);
  }


  /** Writing SP first and again last is writing it last only. */
  lemma FrameUpdates(ram: map<Word, Word>, sp: Word, ret: Word, v1: Word, v2: Word, v3: Word, v4: Word)
    requires 5 <= sp && sp + 5 < WordCount
    ensures ram[0 := sp + 1][sp := ret][sp + 1 := v1][sp + 2 := v2][sp + 3 := v3][sp + 4 := v4][0 := sp + 5] ==
      ram[sp := ret][sp + 1 := v1][sp + 2 := v2][sp + 3 := v3][sp + 4 := v4][0 := sp + 5]
  {
  }

  /** ARG := SP - n - 5. */
  lemma {:induction false} ArgEffect(n: nat, m: Machine, env: map<string, Word>)
    requires n + 5 < AddressLimit
    requires Pointers(env)
    ensures var sp: int := Mem(m.ram, 0);
      var r := Exec(ArgCode(n), m, env);
      r.target.None? && r.m.ram == m.ram[2 := W(sp - 5 - n)]
  {
    var p := ArgCode(n);
    var sp: int := Mem(m.ram, 0);
    var m1 := m.(a := W(n + 5));
    assert Exec(p, m, env) == Exec(p[1..], m1, env);
    var m2 := m1.(d := W(n + 5));
    assert Exec(p[1..], m1, env) == Exec(p[2..], m2, env);
    var m3 := m2.(a := 0);
    assert Exec(p[2..], m2, env) == Exec(p[3..], m3, env);
    WSubLeft(sp, n + 5);
    var m4 := m3.(d := W(sp - 5 - n));
    assert Exec(p[3..], m3, env) == Exec(p[4..], m4, env);
    var m5 := m4.(a := 2);
    assert Exec(p[4..], m4, env) == Exec(p[5..], m5, env);
    var m6 := m5.(ram := m.ram[2 := W(sp - 5 - n)]);
    assert Exec(p[5..], m5, env) == Exec(p[6..], m6, env);
    assert p[6..] == [];
  }

  /** LCL := SP. */
  lemma {:induction false} LclEffect(m: Machine, env: map<string, Word>)
    requires Pointers(env)
    ensures var r := Exec(LclCode(), m, env);
      r.target.None? && r.m.ram == m.ram[1 := Mem(m.ram, 0)]
  {
    var p := LclCode();
    var m1 := m.(a := 0);
    assert Exec(p, m, env) == Exec(p[1..], m1, env);
    var m2 := m1.(d := Mem(m.ram, 0));
    assert Exec(p[1..], m1, env) == Exec(p[2..], m2, env);
    var m3 := m2.(a := 1);
    assert Exec(p[2..], m2, env) == Exec(p[3..], m3, env);
    var m4 := m3.(ram := m.ram[1 := Mem(m.ram, 0)]);
    assert Exec(p[3..], m3, env) == Exec(p[4..], m4, env);
    assert p[4..] == [];
  }

  /** ARG := SP - n - 5, LCL := SP, jump to f. */
  lemma {:induction false} CallTailEffect(f: string, n: nat, k: nat, m: Machine, env: map<string, Word>)
    requires n + 5 < AddressLimit
    requires Pointers(env)
    requires var sp := Mem(m.ram, 0); 5 <= sp
    ensures var sp: int := Mem(m.ram, 0);
      var r := Exec(CallTail(f, n, k), m, env);
      r.target == Some(Lookup(env, f)) && r.m.ram == m.ram[2 := W(sp - 5 - n)][1 := sp]
  {
    var sp: int := Mem(m.ram, 0);
    var jump := [AtSym(f), Goto(Zero, JMP)];
    ExecAppend(ArgCode(n) + LclCode() + jump, [Declare(ReturnLabel(k))], m, env);
    ExecAppend(ArgCode(n) + LclCode(), jump, m, env);
    ExecAppend(ArgCode(n), LclCode(), m, env);
    ArgEffect(n, m, env);
    var m1 := Exec(ArgCode(n), m, env).m;
    LclEffect(m1, env);
    var m2 := Exec(LclCode(), m1, env).m;
    var m3 := m2.(a := Lookup(env, f));
    assert Exec(jump, m2, env) == Exec(jump[1..], m3, env);
  }

  // ---------------------------------------------------------------------
  // Function return
  // ---------------------------------------------------------------------

  /** R13 := RAM[LCL - 5]. */
  lemma {:induction false} SaveReturnEffect(m: Machine, env: map<string, Word>)
    requires Pointers(env) && Lookup(env, "R13") == 13
    ensures var lcl: int := Mem(m.ram, 1);
      var r := Exec(SaveReturnCode(), m, env);
      r.target.None? && r.m.ram == m.ram[13 := Mem(m.ram, W(lcl - 5))]
  {
    var p := SaveReturnCode();
    var lcl: int := Mem(m.ram, 1);
    var m1 := m.(a := 5);
    assert Exec(p, m, env) == Exec(p[1..], m1, env);
    var m2 := m1.(d := 5);
    assert Exec(p[1..], m1, env) == Exec(p[2..], m2, env);
    var m3 := m2.(a := 1);
    assert Exec(p[2..], m2, env) == Exec(p[3..], m3, env);
    var m4 := m3.(a := W(lcl - 5));
    assert Exec(p[3..], m3, env) == Exec(p[4..], m4, env);
    var m5 := m4.(d := Mem(m.ram, W(lcl - 5)));
    assert Exec(p[4..], m4, env) == Exec(p[5..], m5, env);
    var m6 := m5.(a := 13);
    assert Exec(p[5..], m5, env) == Exec(p[6..], m6, env);
    var m7 := m6.(ram := m.ram[13 := Mem(m.ram, W(lcl - 5))]);
    assert Exec(p[6..], m6, env) == Exec(p[7..], m7, env);
    assert p[7..] == [];
  }

  /** RAM[ARG] := RAM[SP - 1]. */
  lemma {:induction false} ResultEffect(m: Machine, env: map<string, Word>)
    requires Pointers(env)
    ensures var sp: int := Mem(m.ram, 0);
      var r := Exec(ResultCode(), m, env);
      r.target.None? && r.m.ram == m.ram[Mem(m.ram, 2) := Mem(m.ram, W(sp - 1))]
  {
    var p := ResultCode();
    var sp: int := Mem(m.ram, 0);
    var m1 := m.(a := 0);
    assert Exec(p, m, env) == Exec(p[1..], m1, env);
    var m2 := m1.(a := W(sp - 1));
    assert Exec(p[1..], m1, env) == Exec(p[2..], m2, env);
    var m3 := m2.(d := Mem(m.ram, W(sp - 1)));
    assert Exec(p[2..], m2, env) == Exec(p[3..], m3, env);
    var m4 := m3.(a := 2);
    assert Exec(p[3..], m3, env) == Exec(p[4..], m4, env);
    var m5 := m4.(a := Mem(m.ram, 2));
    assert Exec(p[4..], m4, env) == Exec(p[5..], m5, env);
    var m6 := m5.(ram := m.ram[Mem(m.ram, 2) := Mem(m.ram, W(sp - 1))]);
    assert Exec(p[5..], m5, env) == Exec(p[6..], m6, env);
    assert p[6..] == [];
  }

  /** SP := ARG + 1. */
  lemma {:induction false} SpEffect(m: Machine, env: map<string, Word>)
    requires Pointers(env)
    ensures var arg: int := Mem(m.ram, 2);
      var r := Exec(SpCode(), m, env);
      r.target.None? && r.m.ram == m.ram[0 := W(arg + 1)]
  {
    var p := SpCode();
    var arg: int := Mem(m.ram, 2);
    var m1 := m.(a := 2);
    assert Exec(p, m, env) == Exec(p[1..], m1, env);
    var m2 := m1.(d := W(arg + 1));
    assert Exec(p[1..], m1, env) == Exec(p[2..], m2, env);
    var m3 := m2.(a := 0);
    assert Exec(p[2..], m2, env) == Exec(p[3..], m3, env);
    var m4 := m3.(ram := m.ram[0 := W(arg + 1)]);
    assert Exec(p[3..], m3, env) == Exec(p[4..], m4, env);
    assert p[4..] == [];
  }

  /** One iteration of the restore loop of `writeReturn`: LCL := LCL - 1, reg := RAM[LCL]. */
  lemma {:induction false} RestoreEffect(reg: string, m: Machine, env: map<string, Word>)
    requires Lookup(env, "LCL") == 1
    ensures var lcl: int := Mem(m.ram, 1);
      var ram1 := m.ram[1 := W(lcl - 1)];
      var r := Exec(RestoreCode(reg), m, env);
      r.target.None? && r.m.ram == ram1[Lookup(env, reg) := Mem(ram1, W(lcl - 1))]
  {
    var p := RestoreCode(reg);
    var lcl: int := Mem(m.ram, 1);
    var ram1 := m.ram[1 := W(lcl - 1)];
    var m1 := m.(a := 1);
    assert Exec(p, m, env) == Exec(p[1..], m1, env);
    var m2 := m1.(a := W(lcl - 1), ram := ram1);
    assert Exec(p[1..], m1, env) == Exec(p[2..], m2, env);
    var m3 := m2.(d := Mem(ram1, W(lcl - 1)));
    assert Exec(p[2..], m2, env) == Exec(p[3..], m3, env);
    var m4 := m3.(a := Lookup(env, reg));
    assert Exec(p[3..], m3, env) == Exec(p[4..], m4, env);
    var m5 := m4.(ram := ram1[Lookup(env, reg) := Mem(ram1, W(lcl - 1))]);
    assert Exec(p[4..], m4, env) == Exec(p[5..], m5, env);
    assert p[5..] == [];
  }

  /** Two registers restored from the two cells below LCL. */
  lemma {:induction false} RestorePairEffect(x: string, y: string, m: Machine, env: map<string, Word>)
    requires Lookup(env, "LCL") == 1
    requires var lcl := Mem(m.ram, 1); var cx := Lookup(env, x);
      3 <= lcl && cx != 1 && lcl - 1 != 1 && lcl - 2 != 1 && lcl - 2 != cx
    ensures var lcl := Mem(m.ram, 1);
      var r := Exec(RestoreCode(x) + RestoreCode(y), m, env);
      && r.target.None?
      && r.m.ram == m.ram[Lookup(env, x) := Mem(m.ram, lcl - 1)][1 := lcl - 2][Lookup(env, y) := Mem(m.ram, lcl - 2)]
  {
    var lcl := Mem(m.ram, 1);
    var cx := Lookup(env, x);
    var cy := Lookup(env, y);
    var vx := Mem(m.ram, lcl - 1);
    var vy := Mem(m.ram, lcl - 2);
    ExecAppend(RestoreCode(x), RestoreCode(y), m, env);
    RestoreEffect(x, m, env);
    WSmall(lcl - 1);
    var m1 := Exec(RestoreCode(x), m, env).m;
    assert m1.ram == m.ram[1 := lcl - 1][cx := vx];
    assert Mem(m1.ram, 1) == lcl - 1;
    RestoreEffect(y, m1, env);
    WSmall(lcl - 2);
    assert Mem(m1.ram[1 := lcl - 2], lcl - 2) == vy;
    Shadow(m.ram, 1, cx, lcl - 1, vx, lcl - 2);
  }

  /** A later write to the same cell hides an earlier one. */
  lemma Shadow(ram: map<Word, Word>, a: Word, b: Word, u: Word, v: Word, w: Word)
    requires a != b
    ensures ram[a := u][b := v][a := w] == ram[b := v][a := w]
  {
  }

  /** The restore loop of `writeReturn` unrolled. */
  lemma RestoreAllOrder()
    ensures RestoreAll(RestoreOrder) == (RestoreCode("THAT") + RestoreCode("THIS")) + (RestoreCode("ARG") + RestoreCode("LCL"))
  {
    var regs := RestoreOrder;
    assert regs[1..] == ["THIS", "ARG", "LCL"];
    assert regs[1..][1..] == ["ARG", "LCL"];
    assert regs[1..][1..][1..] == ["LCL"];
    assert regs[1..][1..][1..][1..] == [];
    assert RestoreCode("LCL") + [] == RestoreCode("LCL");
  }

  /** THAT, THIS, ARG and LCL are read back from LCL-1 down to LCL-4. */
  lemma {:induction false} RestoreAllEffect(m: Machine, env: map<string, Word>)
    requires Pointers(env)
    requires 9 <= Mem(m.ram, 1)
    ensures var lcl := Mem(m.ram, 1);
      var r := Exec(RestoreAll(RestoreOrder), m, env);
      && r.target.None?
      && r.m.ram == m.ram[4 := Mem(m.ram, lcl - 1)][3 := Mem(m.ram, lcl - 2)][2 := Mem(m.ram, lcl - 3)][1 := Mem(m.ram, lcl - 4)]
  {
    var lcl := Mem(m.ram, 1);
    var p := RestoreCode("THAT") + RestoreCode("THIS");
    var q := RestoreCode("ARG") + RestoreCode("LCL");
    RestoreAllOrder();
    ExecAppend(p, q, m, env);
    RestorePairEffect("THAT", "THIS", m, env);
    var m1 := Exec(p, m, env).m;
    assert m1.ram == m.ram[4 := Mem(m.ram, lcl - 1)][1 := lcl - 2][3 := Mem(m.ram, lcl - 2)];
    assert Mem(m1.ram, 1) == lcl - 2;
    assert Mem(m1.ram, lcl - 3) == Mem(m.ram, lcl - 3);
    assert Mem(m1.ram, lcl - 4) == Mem(m.ram, lcl - 4);
    RestorePairEffect("ARG", "LCL", m1, env);
  }

  /**
   * The jump of `writeReturn` as written: `@R13` puts 13 in A, and
   * `A=M;JMP` jumps to that 13 while it loads the saved address into A.
   */
  lemma {:induction false} ReturnJumpEffect(m: Machine, env: map<string, Word>)
    requires Lookup(env, "R13") == 13
    ensures var r := Exec(ReturnJump(), m, env);
      r.target == Some(13) && r.m.ram == m.ram && r.m.a == Mem(m.ram, 13)
  {
    var p := ReturnJump();
    var m1 := m.(a := 13);
    assert Exec(p, m, env) == Exec(p[1..], m1, env);
  }

  /** The corrected jump goes to the address saved in R13. */
  lemma {:induction false} FixedReturnJumpEffect(m: Machine, env: map<string, Word>)
    requires Lookup(env, "R13") == 13
    ensures var r := Exec(FixedReturnJump(), m, env);
      r.target == Some(Mem(m.ram, 13)) && r.m.ram == m.ram
  {
    var p := FixedReturnJump();
    var m1 := m.(a := 13);
    assert Exec(p, m, env) == Exec(p[1..], m1, env);
    var m2 := m1.(a := Mem(m.ram, 13));
    assert Exec(p[1..], m1, env) == Exec(p[2..], m2, env);
  }

  /** RAM[ARG] := RAM[SP - 1] on the machine that has just saved the return address. */
  lemma {:induction false} ResultAfterSave(m: Machine, m1: Machine, env: map<string, Word>)
    requires Pointers(env)
    requires var sp := Mem(m.ram, 0); var lcl := Mem(m.ram, 1); var arg := Mem(m.ram, 2);
      16 <= arg && arg + 5 <= lcl <= sp && m1.ram == m.ram[13 := Mem(m.ram, lcl - 5)]
    ensures var sp := Mem(m.ram, 0); var arg := Mem(m.ram, 2);
      var r := Exec(ResultCode(), m1, env);
      r.target.None? && r.m.ram == m1.ram[arg := Mem(m.ram, sp - 1)]
  {
    var sp := Mem(m.ram, 0);
    ResultEffect(m1, env);
    assert Mem(m1.ram, 0) == sp && Mem(m1.ram, 2) == Mem(m.ram, 2);
    assert Mem(m1.ram, sp - 1) == Mem(m.ram, sp - 1);
  }

  /** The head of `return`: R13 := RAM[LCL-5], then RAM[ARG] := RAM[SP-1], then SP := ARG + 1. */
  lemma {:induction false} ReturnHeadEffect(m: Machine, env: map<string, Word>)
    requires Pointers(env) && Lookup(env, "R13") == 13
    requires var sp := Mem(m.ram, 0); var lcl := Mem(m.ram, 1); var arg := Mem(m.ram, 2);
      16 <= arg && arg + 5 <= lcl <= sp
    ensures var sp := Mem(m.ram, 0); var lcl := Mem(m.ram, 1); var arg := Mem(m.ram, 2);
      var r := Exec(ReturnHead(), m, env);
      r.target.None? && r.m.ram == m.ram[13 := Mem(m.ram, lcl - 5)][arg := Mem(m.ram, sp - 1)][0 := arg + 1]
  {
    var sp := Mem(m.ram, 0);
    var lcl := Mem(m.ram, 1);
    var arg := Mem(m.ram, 2);
    var srp := SaveReturnCode();
    var res := ResultCode();
    var spc := SpCode();
    ExecAppend(srp + res, spc, m, env);
    ExecAppend(srp, res, m, env);
    var ram1 := m.ram[13 := Mem(m.ram, lcl - 5)];
    var m1 := Exec(srp, m, env).m;
    assert Exec(srp, m, env).target.None? && m1.ram == ram1 by {
      SaveReturnEffect(m, env);
    }
    var ram2 := ram1[arg := Mem(m.ram, sp - 1)];
    var m2 := Exec(res, m1, env).m;
    ResultAfterSave(m, m1, env);
    SpEffect(m2, env);
    assert Mem(ram2, 2) == arg;
  }

  /** The restore loop run on the machine the head of `return` leaves behind. */
  lemma {:induction false} RestoreAfterHead(m: Machine, m3: Machine, env: map<string, Word>)
    requires Pointers(env)
    requires var sp := Mem(m.ram, 0); var lcl := Mem(m.ram, 1); var arg := Mem(m.ram, 2);
      16 <= arg && arg + 5 <= lcl <= sp
      && m3.ram == m.ram[13 := Mem(m.ram, lcl - 5)][arg := Mem(m.ram, sp - 1)][0 := arg + 1]
    ensures var sp := Mem(m.ram, 0); var lcl := Mem(m.ram, 1); var arg := Mem(m.ram, 2);
      var r := Exec(RestoreAll(RestoreOrder), m3, env);
      && r.target.None?
      && r.m.ram == m3.ram[4 := Mem(m.ram, lcl - 1)][3 := Mem(m.ram, lcl - 2)][2 := Mem(m.ram, lcl - 3)][1 := Mem(m.ram, lcl - 4)]
  {
    var lcl := Mem(m.ram, 1);
    RestoreAllEffect(m3, env);
    assert Mem(m3.ram, 1) == lcl;
    assert Mem(m3.ram, lcl - 1) == Mem(m.ram, lcl - 1);
    assert Mem(m3.ram, lcl - 2) == Mem(m.ram, lcl - 2);
    assert Mem(m3.ram, lcl - 3) == Mem(m.ram, lcl - 3);
    assert Mem(m3.ram, lcl - 4) == Mem(m.ram, lcl - 4);
  }

  /** What `return` does to memory: everything but its final jump. */
  function Returned(ram: map<Word, Word>): map<Word, Word>
    requires var sp := Mem(ram, 0); var lcl := Mem(ram, 1); var arg := Mem(ram, 2);
      16 <= arg && arg + 5 <= lcl <= sp
  {
    var sp := Mem(ram, 0); var lcl := Mem(ram, 1); var arg := Mem(ram, 2);
    ram[13 := Mem(ram, lcl - 5)][arg := Mem(ram, sp - 1)][0 := arg + 1]
       [4 := Mem(ram, lcl - 1)][3 := Mem(ram, lcl - 2)][2 := Mem(ram, lcl - 3)][1 := Mem(ram, lcl - 4)]
  }

  /**
   * `return` up to its jump, in a frame whose ARG lies at least five cells
   * below LCL: the return address RAM[LCL-5] is saved in R13 before the
   * result overwrites RAM[ARG] (they are the same cell when the callee has
   * no arguments), SP becomes ARG + 1, and THAT, THIS, ARG and LCL get the
   * caller's values back.
   */
  lemma {:induction false} ReturnBodyEffect(m: Machine, env: map<string, Word>)
    requires Pointers(env) && Lookup(env, "R13") == 13
    requires var sp := Mem(m.ram, 0); var lcl := Mem(m.ram, 1); var arg := Mem(m.ram, 2);
      16 <= arg && arg + 5 <= lcl <= sp
    ensures var sp := Mem(m.ram, 0); var lcl := Mem(m.ram, 1); var arg := Mem(m.ram, 2);
      var r := Exec(ReturnHead() + RestoreAll(RestoreOrder), m, env);
      && r.target.None?
      && r.m.ram == m.ram[13 := Mem(m.ram, lcl - 5)][arg := Mem(m.ram, sp - 1)][0 := arg + 1]
           [4 := Mem(m.ram, lcl - 1)][3 := Mem(m.ram, lcl - 2)][2 := Mem(m.ram, lcl - 3)][1 := Mem(m.ram, lcl - 4)]
  {
    var sp := Mem(m.ram, 0);
    var lcl := Mem(m.ram, 1);
    var arg := Mem(m.ram, 2);
    var rest := RestoreAll(RestoreOrder);
    ExecAppend(ReturnHead(), rest, m, env);
    var ram3: map<Word, Word> := m.ram[13 := Mem(m.ram, lcl - 5)][arg := Mem(m.ram, sp - 1)][0 := arg + 1];
    var m3 := Exec(ReturnHead(), m, env).m;
    assert Exec(ReturnHead(), m, env).target.None? && m3.ram == ram3 by {
      ReturnHeadEffect(m, env);
    }
    RestoreAfterHead(m, m3, env);
  }

  /**
   * `return` as written (vm_translator.cpp:288-320): memory changes as
   * ReturnBodyEffect says, and then control goes to instruction 13, not to
   * the saved return address, because `A=M;JMP` jumps to the A that
   * `@R13` set.
   */
  lemma {:induction false} ReturnEffect(m: Machine, env: map<string, Word>)
    requires Pointers(env) && Lookup(env, "R13") == 13
    requires var sp := Mem(m.ram, 0); var lcl := Mem(m.ram, 1); var arg := Mem(m.ram, 2);
      16 <= arg && arg + 5 <= lcl <= sp
    ensures var lcl := Mem(m.ram, 1);
      var r := Exec(ReturnCode(), m, env);
      && r.target == Some(13)
      && r.m.ram == Returned(m.ram)
      && Mem(r.m.ram, 13) == Mem(m.ram, lcl - 5)
  {
    var rest := RestoreAll(RestoreOrder);
    ExecAppend(ReturnHead() + rest, ReturnJump(), m, env);
    ReturnBodyEffect(m, env);
    ReturnJumpEffect(Exec(ReturnHead() + rest, m, env).m, env);
  }

  /**
   * `return` with the corrected jump: memory changes as ReturnBodyEffect
   * says, and control goes to the saved address RAM[LCL-5].
   */
  lemma {:induction false} FixedReturnEffect(m: Machine, env: map<string, Word>)
    requires Pointers(env) && Lookup(env, "R13") == 13
    requires var sp := Mem(m.ram, 0); var lcl := Mem(m.ram, 1); var arg := Mem(m.ram, 2);
      16 <= arg && arg + 5 <= lcl <= sp
    ensures var lcl := Mem(m.ram, 1);
      var r := Exec(FixedReturnCode(), m, env);
      && r.target == Some(Mem(m.ram, lcl - 5))
      && r.m.ram == Returned(m.ram)
  {
    var lcl := Mem(m.ram, 1);
    var rest := RestoreAll(RestoreOrder);
    ExecAppend(ReturnHead() + rest, FixedReturnJump(), m, env);
    ReturnBodyEffect(m, env);
    var m4 := Exec(ReturnHead() + rest, m, env).m;
    FixedReturnJumpEffect(m4, env);
    assert Mem(m4.ram, 13) == Mem(m.ram, lcl - 5);
  }

  /**
   * The callee's machine when it returns keeps the frame `call` built:
   * LCL and ARG as the call set them, the five saved cells untouched, and
   * SP no lower than LCL.
   */
  ghost predicate KeepsFrame(f: string, n: nat, k: nat, m: Machine, callee: Machine, env: map<string, Word>) {
    var sp := Mem(m.ram, 0);
    var entry := Exec(CallCode(f, n, k), m, env).m;
    && sp + 5 <= Mem(callee.ram, 0)
    && Mem(callee.ram, 1) == Mem(entry.ram, 1)
    && Mem(callee.ram, 2) == Mem(entry.ram, 2)
    && forall j: int :: sp <= j < sp + 5 && j < WordCount ==> Mem(callee.ram, j) == Mem(entry.ram, j)
  }

  /**
   * A call followed by the callee's corrected return: control comes back
   * to the return label, the n arguments are popped, the result sits where
   * the first argument was, SP is just above it, and the caller's LCL,
   * ARG, THIS and THAT are back.
   */
  lemma {:induction false} CallThenReturn(f: string, n: nat, k: nat, m: Machine, callee: Machine, env: map<string, Word>)
    requires n + 5 < AddressLimit
    requires Pointers(env) && Lookup(env, "R13") == 13
    requires var sp := Mem(m.ram, 0); 16 + n <= sp && sp + 5 < WordCount
    requires KeepsFrame(f, n, k, m, callee, env)
    ensures var sp := Mem(m.ram, 0);
      var r := Exec(FixedReturnCode(), callee, env);
      && r.target == Some(Lookup(env, ReturnLabel(k)))
      && Mem(r.m.ram, 0) == sp - n + 1
      && Mem(r.m.ram, sp - n) == Mem(callee.ram, Mem(callee.ram, 0) - 1)
      && Mem(r.m.ram, 1) == Mem(m.ram, 1)
      && Mem(r.m.ram, 2) == Mem(m.ram, 2)
      && Mem(r.m.ram, 3) == Mem(m.ram, 3)
      && Mem(r.m.ram, 4) == Mem(m.ram, 4)
  {
    var sp := Mem(m.ram, 0);
    CalleeFrame(f, n, k, m, callee, env);
    FixedReturnEffect(callee, env);
    ReturnedCells(callee.ram, sp + 5, sp - n, Mem(callee.ram, 0));
  }

  /**
   * The same call and return with the return as written: memory is left
   * exactly as by the corrected return, but control goes to instruction
   * 13, so it never comes back to a return label placed anywhere else.
   */
  lemma {:induction false} CallThenReturnAsWritten(f: string, n: nat, k: nat, m: Machine, callee: Machine, env: map<string, Word>)
    requires n + 5 < AddressLimit
    requires Pointers(env) && Lookup(env, "R13") == 13
    requires var sp := Mem(m.ram, 0); 16 + n <= sp && sp + 5 < WordCount
    requires KeepsFrame(f, n, k, m, callee, env)
    ensures var r := Exec(ReturnCode(), callee, env);
      && r.target == Some(13)
      && r.m.ram == Exec(FixedReturnCode(), callee, env).m.ram
      && (Lookup(env, ReturnLabel(k)) != 13 ==> r.target != Some(Lookup(env, ReturnLabel(k))))
  {
    var sp := Mem(m.ram, 0);
    CalleeFrame(f, n, k, m, callee, env);
    ReturnEffect(callee, env);
    FixedReturnEffect(callee, env);
  }

  /** What the callee finds of its frame on return. */
  lemma {:induction false} CalleeFrame(f: string, n: nat, k: nat, m: Machine, callee: Machine, env: map<string, Word>)
    requires n + 5 < AddressLimit
    requires Pointers(env)
    requires var sp := Mem(m.ram, 0); 16 + n <= sp && sp + 5 < WordCount
    requires KeepsFrame(f, n, k, m, callee, env)
    ensures var sp := Mem(m.ram, 0);
      && Mem(callee.ram, 1) == sp + 5 && Mem(callee.ram, 2) == sp - n
      && Mem(callee.ram, sp) == Lookup(env, ReturnLabel(k))
      && Mem(callee.ram, sp + 1) == Mem(m.ram, 1) && Mem(callee.ram, sp + 2) == Mem(m.ram, 2)
      && Mem(callee.ram, sp + 3) == Mem(m.ram, 3) && Mem(callee.ram, sp + 4) == Mem(m.ram, 4)
  {
    var sp := Mem(m.ram, 0);
    CallEffect(f, n, k, m, env);
    WBelow(sp, 5 + n);
    assert Mem(callee.ram, sp) == Mem(Exec(CallCode(f, n, k), m, env).m.ram, sp);
    assert Mem(callee.ram, sp + 1) == Mem(Exec(CallCode(f, n, k), m, env).m.ram, sp + 1);
    assert Mem(callee.ram, sp + 2) == Mem(Exec(CallCode(f, n, k), m, env).m.ram, sp + 2);
    assert Mem(callee.ram, sp + 3) == Mem(Exec(CallCode(f, n, k), m, env).m.ram, sp + 3);
    assert Mem(callee.ram, sp + 4) == Mem(Exec(CallCode(f, n, k), m, env).m.ram, sp + 4);
  }

  /** The cells the return restores, read from the memory the return leaves. */
  lemma ReturnedCells(ram: map<Word, Word>, lcl: int, arg: int, top: int)
    requires 16 <= arg && arg + 5 <= lcl <= top < WordCount
    ensures var r := ram[13 := Mem(ram, lcl - 5)][arg := Mem(ram, top - 1)][0 := arg + 1]
                        [4 := Mem(ram, lcl - 1)][3 := Mem(ram, lcl - 2)][2 := Mem(ram, lcl - 3)][1 := Mem(ram, lcl - 4)];
      && Mem(r, 0) == arg + 1 && Mem(r, arg) == Mem(ram, top - 1)
      && Mem(r, 1) == Mem(ram, lcl - 4) && Mem(r, 2) == Mem(ram, lcl - 3)
      && Mem(r, 3) == Mem(ram, lcl - 2) && Mem(r, 4) == Mem(ram, lcl - 1)
  {
  }


  // ---------------------------------------------------------------------
  // Function entry
  // ---------------------------------------------------------------------

  /** (f), R13 := 0. */
  lemma {:induction false} EntryEffect(f: string, m: Machine, env: map<string, Word>)
    requires Lookup(env, "R13") == 13
    ensures var r := Exec(FunctionEntry(f), m, env);
      r.target.None? && r.m.ram == m.ram[13 := 0]
  {
    var p := FunctionEntry(f);
    assert Exec(p, m, env) == Exec(p[1..], m, env);
    var m1 := m.(a := 13);
    assert Exec(p[1..], m, env) == Exec(p[2..], m1, env);
    var m2 := m1.(ram := m.ram[13 := 0]);
    assert Exec(p[2..], m1, env) == Exec(p[3..], m2, env);
    assert p[3..] == [];
  }

  /** The loop test leaves for f-INITLOOP-END exactly when R13 equals n in 16 bits. */
  lemma {:induction false} LoopTestEffect(f: string, n: nat, m: Machine, env: map<string, Word>)
    requires n < AddressLimit
    requires Lookup(env, "R13") == 13
    ensures var i: int := Mem(m.ram, 13);
      var r := Exec(LoopTest(f, n), m, env);
      && r.m.ram == m.ram
      && r.target == if W(i - n) == 0 then Some(Lookup(env, LoopEndLabel(f))) else None
  {
    var i: int := Mem(m.ram, 13);
    var h := [Declare(LoopLabel(f)), AtSym("R13"), Set(DestD, RegM)];
    var t := [AtNum(n), Set(DestD, DMinusA), AtSym(LoopEndLabel(f)), Goto(RegD, JEQ)];
    assert LoopTest(f, n) == h + t;
    ExecAppend(h, t, m, env);
    LoadCounterEffect(f, m, env);
    LoopExitEffect(f, n, m.(a := 13, d := i), env);
  }

  /** (f-INITLOOP), D := R13. */
  lemma {:induction false} LoadCounterEffect(f: string, m: Machine, env: map<string, Word>)
    requires Lookup(env, "R13") == 13
    ensures Exec([Declare(LoopLabel(f)), AtSym("R13"), Set(DestD, RegM)], m, env) == Run(m.(a := 13, d := Mem(m.ram, 13)), None)
  {
    var p := [Declare(LoopLabel(f)), AtSym("R13"), Set(DestD, RegM)];
    assert Exec(p, m, env) == Exec(p[1..], m, env);
    var m1 := m.(a := 13);
    assert Exec(p[1..], m, env) == Exec(p[2..], m1, env);
    var m2 := m1.(d := Mem(m.ram, 13));
    assert Exec(p[2..], m1, env) == Exec(p[3..], m2, env);
    assert p[3..] == [];
  }

  /** D := D - n; exit to f-INITLOOP-END when it is 0. */
  lemma {:induction false} LoopExitEffect(f: string, n: nat, m: Machine, env: map<string, Word>)
    requires n < AddressLimit
    ensures var r := Exec([AtNum(n), Set(DestD, DMinusA), AtSym(LoopEndLabel(f)), Goto(RegD, JEQ)], m, env);
      && r.m.ram == m.ram
      && r.target == if W(m.d - n) == 0 then Some(Lookup(env, LoopEndLabel(f))) else None
  {
    var p := [AtNum(n), Set(DestD, DMinusA), AtSym(LoopEndLabel(f)), Goto(RegD, JEQ)];
    var m1 := m.(a := W(n));
    assert Exec(p, m, env) == Exec(p[1..], m1, env);
    WSubLeft(m.d, n);
    var m2 := m1.(d := W(m.d - n));
    assert Exec(p[1..], m1, env) == Exec(p[2..], m2, env);
    var m3 := m2.(a := Lookup(env, LoopEndLabel(f)));
    assert Exec(p[2..], m2, env) == Exec(p[3..], m3, env);
    assert Exec(p[3..], m3, env) == Run(m3, if W(m.d - n) == 0 then Some(m3.a) else None);
  }

  /** The loop body pushes 0, counts it in R13 and jumps back to the test. */
  lemma {:induction false} LoopBodyEffect(f: string, m: Machine, env: map<string, Word>)
    requires Pointers(env) && Lookup(env, "R13") == 13
    requires var sp := Mem(m.ram, 0); sp != 0 && sp != 13
    ensures var sp: int := Mem(m.ram, 0); var i: int := Mem(m.ram, 13);
      var r := Exec(LoopBody(f), m, env);
      && r.target == Some(Lookup(env, LoopLabel(f)))
      && r.m.ram == m.ram[sp := 0][0 := W(sp + 1)][13 := W(i + 1)]
  {
    var p := LoopBody(f);
    var sp: int := Mem(m.ram, 0);
    var i: int := Mem(m.ram, 13);
    var m1 := m.(a := 0);
    assert Exec(p, m, env) == Exec(p[1..], m1, env);
    var m2 := m1.(a := sp);
    assert Exec(p[1..], m1, env) == Exec(p[2..], m2, env);
    var ram1 := m.ram[sp := 0];
    var m3 := m2.(ram := ram1);
    assert Exec(p[2..], m2, env) == Exec(p[3..], m3, env);
    var m4 := m3.(a := 0);
    assert Exec(p[3..], m3, env) == Exec(p[4..], m4, env);
    var ram2 := ram1[0 := W(sp + 1)];
    var m5 := m4.(ram := ram2);
    assert Exec(p[4..], m4, env) == Exec(p[5..], m5, env);
    var m6 := m5.(a := 13);
    assert Exec(p[5..], m5, env) == Exec(p[6..], m6, env);
    var m7 := m6.(ram := ram2[13 := W(i + 1)]);
    assert Exec(p[6..], m6, env) == Exec(p[7..], m7, env);
    var m8 := m7.(a := Lookup(env, LoopLabel(f)));
    assert Exec(p[7..], m7, env) == Exec(p[8..], m8, env);
  }

  /**
   * The local-initialisation loop of `writeFunction`, run from its label:
   * each pass runs the test and, unless it left for the end label, the
   * body, whose jump leads back to the test. fuel bounds the passes.
   */
  function InitLoop(f: string, n: nat, m: Machine, env: map<string, Word>, fuel: nat): Run
    decreases fuel
  {
    var r := Exec(LoopTest(f, n) + LoopBody(f), m, env);
    if fuel > 0 && r.target == Some(Lookup(env, LoopLabel(f))) then InitLoop(f, n, r.m, env, fuel - 1) else r
  }

  /** After the loop, cells sp..sp+c-1 hold 0, SP is sp+c, R13 is n, and no other cell has changed. */
  ghost predicate Filled(before: map<Word, Word>, after: map<Word, Word>, sp: int, c: int, n: int) {
    && Mem(after, 0) == sp + c
    && Mem(after, 13) == n
    && (forall j: Word :: sp <= j < sp + c ==> Mem(after, j) == 0)
    && (forall j: Word :: j != 0 && j != 13 && !(sp <= j < sp + c) ==> Mem(after, j) == Mem(before, j))
  }

  /**
   * From R13 == i, the loop pushes n - i zeros and then leaves for
   * f-INITLOOP-END (vm_translator.cpp:328-344). The stack must lie above
   * R13 and n must fit a word; the two loop labels must be different
   * addresses, as the assembler makes them.
   */
  lemma {:induction false} InitLoopFills(f: string, n: nat, i: nat, m: Machine, env: map<string, Word>)
    requires Pointers(env) && Lookup(env, "R13") == 13
    requires Lookup(env, LoopLabel(f)) != Lookup(env, LoopEndLabel(f))
    requires var sp := Mem(m.ram, 0); 16 <= sp && sp + n - i < WordCount && n < AddressLimit
    requires i <= n && Mem(m.ram, 13) == i
    ensures var r := InitLoop(f, n, m, env, n - i);
      && r.target == Some(Lookup(env, LoopEndLabel(f)))
      && Filled(m.ram, r.m.ram, Mem(m.ram, 0), n - i, n)
    decreases n - i
  {
    var sp := Mem(m.ram, 0);
    var r := Exec(LoopTest(f, n) + LoopBody(f), m, env);
    assert r == (var t := Exec(LoopTest(f, n), m, env); if t.target.Some? then t else Exec(LoopBody(f), t.m, env)) by {
      ExecAppend(LoopTest(f, n), LoopBody(f), m, env);
    }
    LoopTestEffect(f, n, m, env);
    var t := Exec(LoopTest(f, n), m, env);
    if i == n {
      assert W(i - n) == 0;
    } else {
      assert W(i - n) != 0;
      LoopBodyEffect(f, t.m, env);
      var ram1 := m.ram[sp := 0][0 := W(sp + 1)][13 := W(i + 1)];
      assert r.m.ram == ram1;
      assert r.target == Some(Lookup(env, LoopLabel(f)));
      var m1 := r.m;
      assert Mem(m1.ram, 0) == sp + 1;
      assert Mem(m1.ram, 13) == i + 1;
      InitLoopFills(f, n, i + 1, m1, env);
      var r1 := InitLoop(f, n, m1, env, n - (i + 1));
      assert InitLoop(f, n, m, env, n - i) == r1;
      assert Filled(m1.ram, r1.m.ram, sp + 1, n - (i + 1), n);
      assert forall j: Word :: sp <= j < sp + (n - i) ==> Mem(r1.m.ram, j) == 0 by {
        forall j: Word | sp <= j < sp + (n - i)
          ensures Mem(r1.m.ram, j) == 0
        {
          if j == sp {
            assert Mem(m1.ram, j) == 0;
          }
        }
      }
    }
  }

  /**
   * `function f n` declares f and pushes n zeros for f's locals; R13 is
   * left at n (vm_translator.cpp:322-345).
   */
  lemma {:induction false} FunctionFills(f: string, n: nat, m: Machine, env: map<string, Word>)
    requires n < AddressLimit
    requires Pointers(env) && Lookup(env, "R13") == 13
    requires Lookup(env, LoopLabel(f)) != Lookup(env, LoopEndLabel(f))
    requires var sp := Mem(m.ram, 0); 16 <= sp && sp + n < WordCount
    ensures var m1 := Exec(FunctionEntry(f), m, env).m;
      var r := InitLoop(f, n, m1, env, n);
      && Exec(FunctionEntry(f), m, env).target.None?
      && r.target == Some(Lookup(env, LoopEndLabel(f)))
      && Filled(m.ram, r.m.ram, Mem(m.ram, 0), n, n)
  {
    EntryEffect(f, m, env);
    var m1 := Exec(FunctionEntry(f), m, env).m;
    InitLoopFills(f, n, 0, m1, env);
  }

  /**
   * The bootstrap: SP := 256, then `call Sys.init 0`, which leaves the
   * first frame at 256..260, ARG at 256, LCL and SP at 261, and jumps to
   * Sys.init (vm_translator.cpp:132-140).
   */
  lemma {:induction false} InitEffect(k: nat, m: Machine, env: map<string, Word>)
    requires Pointers(env)
    ensures var r := Exec(InitCode(k), m, env);
      && r.target == Some(Lookup(env, "Sys.init"))
      && r.m.ram == m.ram[256 := Lookup(env, ReturnLabel(k))]
           [257 := Mem(m.ram, 1)][258 := Mem(m.ram, 2)][259 := Mem(m.ram, 3)][260 := Mem(m.ram, 4)]
           [0 := 261][1 := 261][2 := 256]
  {
    var p := [AtNum(256), Set(DestD, RegA), AtSym("SP"), Set(DestM, RegD)];
    ExecAppend(p, CallCode("Sys.init", 0, k), m, env);
    var m1 := m.(a := 256);
    assert Exec(p, m, env) == Exec(p[1..], m1, env);
    var m2 := m1.(d := 256);
    assert Exec(p[1..], m1, env) == Exec(p[2..], m2, env);
    var m3 := m2.(a := 0);
    assert Exec(p[2..], m2, env) == Exec(p[3..], m3, env);
    var m4 := m3.(ram := m.ram[0 := 256]);
    assert Exec(p[3..], m3, env) == Exec(p[4..], m4, env);
    assert p[4..] == [];
    CallEffect("Sys.init", 0, k, m4, env);
  }
}
