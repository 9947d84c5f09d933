/**
 * The VM-language Parser of both translators (vm_translator.cpp:11-106 and
 * 07/vm_translator.cpp:12-107, which are the same code): line cleaning,
 * the command list with its cursor, classification by keyword prefix and
 * operand extraction by the first and last separator.
 */
module VmParser {
  import opened Text

  // ---------------------------------------------------------------------
  // Line cleaning
  // ---------------------------------------------------------------------

  /**
   * `std::unique` with the predicate "both are whitespace": of every run of
   * adjacent whitespace characters only the first is kept.
   */
  function Squeeze(s: string): (r: string)
    decreases |s|
  {
    if |s| < 2 then s
    else if IsSpace(s[0]) && IsSpace(s[1]) then Squeeze([s[0]] + s[2..])
    else [s[0]] + Squeeze(s[1..])
  }

  predicate NoDoubleSpace(s: string) {
    forall i :: 0 <= i < |s| - 1 ==> !(IsSpace(s[i]) && IsSpace(s[i + 1]))
  }

  predicate AllSpace(s: string) {
    forall i :: 0 <= i < |s| ==> IsSpace(s[i])
  }

  /** The characters `find_first_not_of(" \t\r")` and `find_last_not_of` look for. */
  predicate NotSpace(c: char) { !IsSpace(c) }

  /** What every stored command line looks like. */
  predicate IsCleanCommand(s: string) {
    && s != []
    && NoComment(s)
    && !IsSpace(s[0])
    && !IsSpace(s[|s| - 1])
    && NoDoubleSpace(s)
  }

  /**
   * One iteration of the constructor's loop on a line: cut at "//", trim
   * " \t\r" at both ends (dropping a line with nothing else), squeeze
   * whitespace runs, keep the line if it is non-empty. Cleaning only ever
   * deletes whitespace and the comment, and drops exactly the lines that
   * hold nothing else; stated without the positions the loop computes, it
   * is `Unique` of `Trim` of the comment-free text.
   */
  function CleanLine(line: string): (r: Option<string>)
    ensures r.Some? ==> IsCleanCommand(r.value)
    ensures r.Some? ==> NonSpace(r.value) == NonSpace(CutComment(line))
    ensures r.None? <==> NonSpace(CutComment(line)) == []
    ensures var t := Trim(CutComment(line));
      r == if t == [] then None else Some(Unique(t))
  {
    var cut := CutComment(line);
    match FirstIndex(cut, NotSpace)
    case None =>
      AllSpaceNonSpace(cut);
      TrimStartDrop(cut, |cut|);
      None
    case Some(start) =>
      var end := LastIndex(cut, NotSpace).value;
      var squeezed := Squeeze(cut[start..end + 1]);
      TrimmedClean(cut, start, end);
      SpanSqueezed(cut, start, end);
      if squeezed != [] then Some(squeezed) else None
  }

  /** The trimmed and squeezed text of a comment-free line is a clean command with the line's non-blank characters. */
  lemma TrimmedClean(cut: string, start: nat, end: nat)
    requires NoComment(cut) && start <= end < |cut|
    requires !IsSpace(cut[start]) && !IsSpace(cut[end])
    requires forall j :: 0 <= j < start ==> IsSpace(cut[j])
    requires forall j :: end < j < |cut| ==> IsSpace(cut[j])
    ensures var r := Squeeze(cut[start..end + 1]);
      IsCleanCommand(r) && NonSpace(r) == NonSpace(cut) && NonSpace(cut) != []
  {
    var t := cut[start..end + 1];
    var r := Squeeze(t);
    assert NonSpace(r) == NonSpace(cut) by {
      TrimNonSpace(cut, start, end);
      SqueezeNonSpace(t);
    }
    assert NoComment(r) by {
      assert forall i :: 0 <= i < |t| ==> t[i] == cut[start + i];
      assert forall i :: 0 <= i < |t| ==> CommentAt(t, i) ==> CommentAt(cut, start + i);
      SqueezeNoComment(t);
    }
    assert NoDoubleSpace(r) by {
      SqueezeNoDoubleSpace(t);
    }
    assert r != [] && !IsSpace(r[0]) && !IsSpace(r[|r| - 1]) by {
      SqueezeKeepsEnds(t);
    }
    assert NonSpace(t) != [] by {
      assert t == [t[0]] + t[1..];
      NonSpaceAppend([t[0]], t[1..]);
    }
    assert NonSpace(t) == NonSpace(cut) by {
      TrimNonSpace(cut, start, end);
    }
  }

  lemma AllSpaceNonSpace(s: string)
    requires forall i :: 0 <= i < |s| ==> IsSpace(s[i])
    ensures NonSpace(s) == []
  {
    if s != [] {
      assert IsSpace(s[0]);
      AllSpaceNonSpace(s[1..]);
    }
  }

  lemma {:induction false} TrimNonSpace(s: string, start: nat, end: nat)
    requires start <= end < |s|
    requires forall j :: 0 <= j < start ==> IsSpace(s[j])
    requires forall j :: end < j < |s| ==> IsSpace(s[j])
    ensures NonSpace(s[start..end + 1]) == NonSpace(s)
  {
    assert s == s[..start] + s[start..end + 1] + s[end + 1..];
    NonSpaceAppend(s[..start] + s[start..end + 1], s[end + 1..]);
    NonSpaceAppend(s[..start], s[start..end + 1]);
    AllSpaceNonSpace(s[..start]);
    AllSpaceNonSpace(s[end + 1..]);
  }

  lemma {:induction false} SqueezeKeepsEnds(s: string)
    ensures |Squeeze(s)| <= |s|
    ensures s != [] ==> Squeeze(s) != [] && Squeeze(s)[0] == s[0]
    ensures s != [] && !IsSpace(s[|s| - 1]) ==> Squeeze(s)[|Squeeze(s)| - 1] == s[|s| - 1]
    decreases |s|
  {
    if |s| >= 2 {
      if IsSpace(s[0]) && IsSpace(s[1]) {
        SqueezeKeepsEnds([s[0]] + s[2..]);
      } else {
        SqueezeKeepsEnds(s[1..]);
      }
    }
  }

  lemma {:induction false} SqueezeNoDoubleSpace(s: string)
    ensures NoDoubleSpace(Squeeze(s))
    decreases |s|
  {
    if |s| >= 2 {
      if IsSpace(s[0]) && IsSpace(s[1]) {
        SqueezeNoDoubleSpace([s[0]] + s[2..]);
      } else {
        SqueezeNoDoubleSpace(s[1..]);
        SqueezeKeepsEnds(s[1..]);
        var r := Squeeze(s[1..]);
        assert forall i :: 1 <= i < |r| ==> ([s[0]] + r)[i] == r[i - 1];
      }
    }
  }

  lemma {:induction false} SqueezeNoComment(s: string)
    requires NoComment(s)
    ensures NoComment(Squeeze(s))
    decreases |s|
  {
    if |s| >= 2 {
      if IsSpace(s[0]) && IsSpace(s[1]) {
        var u := [s[0]] + s[2..];
        assert forall i :: 1 <= i < |u| ==> u[i] == s[i + 1];
        assert forall i :: 1 <= i < |u| ==> CommentAt(u, i) ==> CommentAt(s, i + 1);
        SqueezeNoComment(u);
      } else {
        assert forall i :: 0 <= i < |s| - 1 ==> CommentAt(s[1..], i) ==> CommentAt(s, i + 1);
        SqueezeNoComment(s[1..]);
        SqueezeKeepsEnds(s[1..]);
        var r := Squeeze(s[1..]);
        assert !CommentAt(s, 0);
        assert forall i :: 1 <= i < |r| + 1 ==> ([s[0]] + r)[i] == r[i - 1];
        assert forall i :: 1 <= i < |r| ==> CommentAt([s[0]] + r, i) ==> CommentAt(r, i - 1);
      }
    }
  }

  lemma {:induction false} SqueezeNonSpace(s: string)
    ensures NonSpace(Squeeze(s)) == NonSpace(s)
    decreases |s|
  {
    if |s| >= 2 {
      if IsSpace(s[0]) && IsSpace(s[1]) {
        var u := [s[0]] + s[2..];
        SqueezeNonSpace(u);
        assert u[1..] == s[2..];
        assert s[1..][1..] == s[2..];
      } else {
        SqueezeNonSpace(s[1..]);
        var r := Squeeze(s[1..]);
        assert ([s[0]] + r)[1..] == r;
      }
    }
  }

  lemma {:induction false} SqueezeOfNoDoubleSpace(s: string)
    requires NoDoubleSpace(s)
    ensures Squeeze(s) == s
    decreases |s|
  {
    if |s| >= 2 {
      assert NoDoubleSpace(s[1..]) by {
        assert forall i :: 0 <= i < |s| - 2 ==> s[1..][i] == s[i + 1];
      }
      SqueezeOfNoDoubleSpace(s[1..]);
    }
  }

  /** A stored command line is left as it is by cleaning: cleaning is idempotent. */
  lemma CleanLineOfClean(s: string)
    requires IsCleanCommand(s)
    ensures CleanLine(s) == Some(s)
  {
    assert CutComment(s) == s;
    var p := NotSpace;
    assert FirstIndex(s, p) == Some(0) by {
      assert p(s[0]);
    }
    assert LastIndex(s, p) == Some(|s| - 1) by {
      assert p(s[|s| - 1]);
    }
    assert s[0..|s|] == s;
    SqueezeOfNoDoubleSpace(s);
  }

  // ---------------------------------------------------------------------
  // Line cleaning, stated independently
  // ---------------------------------------------------------------------

  /** `find_first_not_of(" \t\r")` as a cut: s without its leading whitespace. */
  function TrimStart(s: string): string {
    if s != [] && IsSpace(s[0]) then TrimStart(s[1..]) else s
  }

  /** `find_last_not_of(" \t\r")` as a cut: s without its trailing whitespace. */
  function TrimEnd(s: string): string {
    if s != [] && IsSpace(s[|s| - 1]) then TrimEnd(s[..|s| - 1]) else s
  }

  function Trim(s: string): string {
    TrimEnd(TrimStart(s))
  }

  /**
   * The rule of `std::unique` with the predicate "both are whitespace",
   * character by character: s[i] is kept unless s[i-1] and s[i] are both
   * whitespace. (The algorithm compares with the last character it kept,
   * which is s[i-1] or, when s[i-1] was dropped, another whitespace.)
   */
  function Unique(s: string): string {
    if s == [] then []
    else
      var n := |s|;
      Unique(s[..n - 1]) + (if n >= 2 && IsSpace(s[n - 2]) && IsSpace(s[n - 1]) then [] else [s[n - 1]])
  }

  lemma {:induction false} TrimStartDrop(s: string, k: nat)
    requires k <= |s| && (forall j :: 0 <= j < k ==> IsSpace(s[j]))
    requires k == |s| || !IsSpace(s[k])
    ensures TrimStart(s) == s[k..]
  {
    if k > 0 {
      assert forall j :: 0 <= j < k - 1 ==> s[1..][j] == s[j + 1];
      TrimStartDrop(s[1..], k - 1);
      assert s[1..][k - 1..] == s[k..];
    }
  }

  lemma {:induction false} TrimEndDrop(s: string, k: nat)
    requires k <= |s| && (forall j :: k <= j < |s| ==> IsSpace(s[j]))
    requires k == 0 || !IsSpace(s[k - 1])
    ensures TrimEnd(s) == s[..k]
    decreases |s| - k
  {
    if k < |s| {
      var u := s[..|s| - 1];
      assert forall j :: k <= j < |u| ==> u[j] == s[j];
      TrimEndDrop(u, k);
      assert u[..k] == s[..k];
    } else {
      assert s[..k] == s;
    }
  }

  /** The first character is always kept, and a character in front is kept unless both are whitespace. */
  lemma {:induction false} UniqueCons(c: char, t: string)
    ensures t != [] ==> Unique(t) != [] && Unique(t)[0] == t[0]
    ensures Unique([c] + t) ==
      if t == [] then [c]
      else if IsSpace(c) && IsSpace(t[0]) then [c] + Unique(t)[1..]
      else [c] + Unique(t)
    decreases |t|
  {
    var s := [c] + t;
    if t == [] {
      assert s[..0] == [];
    } else if |t| == 1 {
      assert s[..1] == [c];
      assert Unique([c]) == [c] by { assert [c][..0] == []; }
      assert t[..0] == [];
    } else {
      var t' := t[..|t| - 1];
      assert s[..|s| - 1] == [c] + t';
      assert s[|s| - 2] == t[|t| - 2] && s[|s| - 1] == t[|t| - 1];
      UniqueCons(c, t');
      assert t'[0] == t[0];
    }
  }

  /** Squeeze follows the rule of `std::unique`. */
  lemma {:induction false} SqueezeIsUnique(s: string)
    ensures Squeeze(s) == Unique(s)
    decreases |s|
  {
    if |s| == 0 {
    } else if |s| == 1 {
      assert s[..0] == [];
    } else {
      assert s == [s[0]] + s[1..];
      UniqueCons(s[0], s[1..]);
      if IsSpace(s[0]) && IsSpace(s[1]) {
        var u := [s[0]] + s[2..];
        SqueezeIsUnique(u);
        assert s[1..] == [s[1]] + s[2..];
        UniqueCons(s[1], s[2..]);
        UniqueCons(s[0], s[2..]);
      } else {
        SqueezeIsUnique(s[1..]);
      }
    }
  }

  /** Trimming a line cuts it to the span from its first to its last non-blank character. */
  lemma TrimIsSpan(s: string, start: nat, end: nat)
    requires start <= end < |s| && !IsSpace(s[start]) && !IsSpace(s[end])
    requires forall j :: 0 <= j < start ==> IsSpace(s[j])
    requires forall j :: end < j < |s| ==> IsSpace(s[j])
    ensures Trim(s) == s[start..end + 1]
  {
    TrimStartDrop(s, start);
    var u := s[start..];
    assert forall j :: end - start + 1 <= j < |u| ==> u[j] == s[start + j];
    TrimEndDrop(u, end - start + 1);
    assert u[..end - start + 1] == s[start..end + 1];
  }

  /** Between the first and last non-blank characters lies the trimmed text, and squeezing it is `Unique`. */
  lemma SpanSqueezed(s: string, start: nat, end: nat)
    requires start <= end < |s| && !IsSpace(s[start]) && !IsSpace(s[end])
    requires forall j :: 0 <= j < start ==> IsSpace(s[j])
    requires forall j :: end < j < |s| ==> IsSpace(s[j])
    ensures Trim(s) == s[start..end + 1]
    ensures Squeeze(s[start..end + 1]) == Unique(Trim(s)) != []
  {
    var t := s[start..end + 1];
    TrimIsSpan(s, start, end);
    SqueezeKeepsEnds(t);
    SqueezeIsUnique(t);
  }

  /** The command list the constructor's loop builds from the file's lines. */
  function CleanAll(lines: seq<string>): (cmds: seq<string>)
    ensures |cmds| <= |lines|
  {
    if lines == [] then []
    else
      CleanAll(lines[..|lines| - 1]) + Kept(CleanLine(lines[|lines| - 1]))
  }

  /** The commands a cleaned line contributes: none for a blank line. */
  function Kept(c: Option<string>): (r: seq<string>)
    ensures |r| == if c.Some? then 1 else 0
  {
    match c
    case None => []
    case Some(s) => [s]
  }

  /** Every stored command is a cleaned command line. */
  lemma {:induction false} CleanAllClean(lines: seq<string>)
    ensures forall k :: 0 <= k < |CleanAll(lines)| ==> IsCleanCommand(CleanAll(lines)[k])
  {
    if lines != [] {
      CleanAllClean(lines[..|lines| - 1]);
    }
  }

  /** One more line: its command, if it has one, comes after those of the lines before it. */
  lemma CleanAllStep(lines: seq<string>, k: nat)
    requires k < |lines|
    ensures CleanAll(lines[..k + 1]) == CleanAll(lines[..k]) + Kept(CleanLine(lines[k]))
  {
    assert lines[..k + 1][..k] == lines[..k];
  }

  /**
   * Commands keep the order of their source lines: the commands of a
   * file are those of its first part followed by those of the rest.
   */
  lemma {:induction false} CleanAllAppend(a: seq<string>, b: seq<string>)
    ensures CleanAll(a + b) == CleanAll(a) + CleanAll(b)
    decreases |b|
  {
    if b == [] {
      assert a + b == a;
    } else {
      var init := b[..|b| - 1];
      var x := Kept(CleanLine(b[|b| - 1]));
      assert (a + b)[..|a + b| - 1] == a + init;
      assert (a + b)[|a + b| - 1] == b[|b| - 1];
      assert CleanAll(a + b) == CleanAll(a + init) + x;
      CleanAllAppend(a, init);
      AppendAssoc(CleanAll(a), CleanAll(init), x);
    }
  }

  lemma AppendAssoc<T>(p: seq<T>, q: seq<T>, r: seq<T>)
    ensures (p + q) + r == p + (q + r)
  {
  }

  /** A single line contributes its cleaned text, or nothing if it is blank. */
  lemma CleanAllSingle(line: string)
    ensures CleanAll([line]) == Kept(CleanLine(line))
  {
    assert [line][..0] == [];
  }

  /** The loop of the Parser's constructor: each line cleaned, the non-blank ones kept in order. */
  method ReadCommands(lines: seq<string>) returns (cmds: seq<string>)
    ensures cmds == CleanAll(lines)
  {
    cmds := [];
    var k := 0;
    while k < |lines|
      invariant 0 <= k <= |lines|
      invariant cmds == CleanAll(lines[..k])
    {
      var c := CleanLine(lines[k]);
      CleanAllStep(lines, k);
      cmds := cmds + Kept(c);
      k := k + 1;
    }
    assert lines[..k] == lines;
  }

  class Parser {
    var commands: seq<string>
    var idx: nat
    var currentCommand: string

    /** Reads the file's lines, keeping the cleaned non-blank ones in order. */
    constructor (lines: seq<string>)
      ensures commands == CleanAll(lines) && idx == 0 && currentCommand == ""
    {
      var cmds := ReadCommands(lines);
      commands := cmds;
      idx := 0;
      currentCommand := "";
    }

    predicate HasMoreCommands()
      reads this
    {
      idx < |commands|
    }

    method Advance()
      requires HasMoreCommands()
      modifies this
      ensures currentCommand == old(commands[idx])
      ensures idx == old(idx) + 1 && commands == old(commands)
    {
      currentCommand := commands[idx];
      idx := idx + 1;
    }
  }

  // ---------------------------------------------------------------------
  // Classification and operands
  // ---------------------------------------------------------------------

  datatype CommandType =
    | Arithmetic | Push | Pop | Label | Goto | If | Function | Return | Call

  /**
   * `commandType`: the keyword prefixes are tried in the order push, pop,
   * label, goto, if-goto, function, return, call; anything else is an
   * arithmetic command.
   */
  function Classify(c: string): (t: CommandType)
    // No keyword is a prefix of another, so the order of the tests does
    // not matter: the type is the one whose keyword begins the line.
    ensures forall u :: u != Arithmetic ==> (TypeKeyword(u) <= c <==> u == t)
  {
    var t :=
      if "push" <= c then Push
      else if "pop" <= c then Pop
      else if "label" <= c then Label
      else if "goto" <= c then Goto
      else if "if-goto" <= c then If
      else if "function" <= c then Function
      else if "return" <= c then Return
      else if "call" <= c then Call
      else Arithmetic;
    assert t != Arithmetic ==> TypeKeyword(t) <= c;
    KeywordsPrefixFree(c);
    t
  }

  /** The keyword a command type is written with. */
  function TypeKeyword(t: CommandType): string
    requires t != Arithmetic
  {
    match t
    case Push => "push"
    case Pop => "pop"
    case Label => "label"
    case Goto => "goto"
    case If => "if-goto"
    case Function => "function"
    case Return => "return"
    case Call => "call"
  }

  /** At most one keyword begins a line. */
  lemma KeywordsPrefixFree(c: string)
    ensures forall u, v ::
      u != Arithmetic && v != Arithmetic && TypeKeyword(u) <= c && TypeKeyword(v) <= c ==> u == v
  {
    forall u, v | u != Arithmetic && v != Arithmetic && TypeKeyword(u) <= c && TypeKeyword(v) <= c
      ensures u == v
    {
      KeywordPair(c, u, v);
    }
  }

  lemma KeywordPair(c: string, u: CommandType, v: CommandType)
    requires u != Arithmetic && v != Arithmetic
    requires TypeKeyword(u) <= c && TypeKeyword(v) <= c
    ensures u == v
  {
    var p, q := TypeKeyword(u), TypeKeyword(v);
    assert p[0] == c[0] == q[0];
    assert p[1] == c[1] == q[1];
  }

  predicate HasTwoOperands(t: CommandType) {
    t == Push || t == Pop || t == Function || t == Call
  }

  /**
   * `arg1`: the whole line for an arithmetic command; for push, pop,
   * function and call the text strictly between the first and the last
   * separator; otherwise everything after the first separator. The cases
   * with fewer separators follow the unsigned arithmetic of `substr`: with
   * none the whole line is returned, with one the rest after it.
   */
  function Arg1(c: string): (r: string)
    ensures Classify(c) == Arithmetic ==> r == c
    ensures IsPiece(r, c)
  {
    var t := Classify(c);
    var r := Operand1(t, c);
    if t == Arithmetic || FirstIndex(c, IsBlank).None? then
      Piece([], r, []);
      r
    else
      var i, j := FirstIndex(c, IsBlank).value, LastIndex(c, IsBlank).value;
      if HasTwoOperands(t) && i < j then
        Piece(c[..i + 1], r, c[j..]);
        r
      else
        Piece(c[..i + 1], r, []);
        r
  }

  /** s occurs in c as a run of consecutive characters. */
  ghost predicate IsPiece(s: string, c: string) {
    exists p, q :: c == p + s + q
  }

  lemma Piece(p: string, s: string, q: string)
    ensures IsPiece(s, p + s + q) && (q == [] ==> p + s + q == p + s) && (p == [] ==> [] + s + q == s + q)
  {
    assert p + s + [] == p + s;
    assert [] + s + q == s + q;
  }

  /** `arg1` once the command type t of c is known. */
  function Operand1(t: CommandType, c: string): (r: string)
    // An arithmetic command, and a line without a separator, is its own operand.
    ensures t == Arithmetic || FirstIndex(c, IsBlank).None? ==> r == c
    // Otherwise the line is its first word, a separator, the operand and,
    // for push, pop, function and call when the line has a second
    // separator, the rest of the line from its last separator on.
    ensures t != Arithmetic && FirstIndex(c, IsBlank).Some? ==>
      var i, j := FirstIndex(c, IsBlank).value, LastIndex(c, IsBlank).value;
      && (forall k :: 0 <= k < i ==> !IsBlank(c[k]))
      && IsBlank(c[i]) && IsBlank(c[j])
      && (if HasTwoOperands(t) && i < j then c == c[..i + 1] + r + c[j..] else c == c[..i + 1] + r)
  {
    if t == Arithmetic then c
    else match FirstIndex(c, IsBlank)
      case None => c
      case Some(i) =>
        var j := LastIndex(c, IsBlank).value;
        if HasTwoOperands(t) && i < j then
          var r := c[i + 1..j];
          assert c == c[..i + 1] + r + c[j..];
          r
        else
          var r := c[i + 1..];
          assert c == c[..i + 1] + r;
          r
  }

  /**
   * `arg2`: `stoi` of the text after the last separator (the whole line if
   * there is none). A number is read exactly when that last word begins
   * with a digit.
   */
  function Arg2(c: string): (r: Option<nat>)
    ensures var k := match LastIndex(c, IsBlank) case None => 0 case Some(j) => j + 1;
      && k <= |c|
      && (forall m :: k <= m < |c| ==> !IsBlank(c[m]))
      && (r.Some? <==> k < |c| && IsDigit(c[k]))
  {
    match LastIndex(c, IsBlank)
    case None => Stoi(c)
    case Some(j) => Stoi(c[j + 1..])
  }

  /** A number written after the last separator, or as the whole line, is what `arg2` reads. */
  lemma Arg2OfNumber(u: string, n: nat)
    ensures Arg2(u + " " + NatStr(n)) == Some(n)
    ensures Arg2(NatStr(n)) == Some(n)
  {
    var d := NatStr(n);
    assert NoSpace(d);
    LastBlankBefore(u, d);
    assert (u + " " + d)[|u| + 1..] == d;
    StoiNatStr(n);
  }

  /** The command forms of the VM language, for stating what the parser recovers. */
  datatype VmCommand =
    | ArithmeticCmd(op: string)
    | PushCmd(segment: string, index: nat)
    | PopCmd(segment: string, index: nat)
    | LabelCmd(name: string)
    | GotoCmd(name: string)
    | IfGotoCmd(name: string)
    | FunctionCmd(name: string, count: nat)
    | CallCmd(name: string, count: nat)
    | ReturnCmd

  /** A token: non-empty, without whitespace or a comment marker. */
  predicate Token(s: string) {
    s != [] && NoSpace(s) && NoComment(s)
  }

  predicate WellFormed(cmd: VmCommand) {
    match cmd
    case ArithmeticCmd(op) => Token(op) && Classify(op) == Arithmetic
    case PushCmd(s, _) => Token(s)
    case PopCmd(s, _) => Token(s)
    case LabelCmd(l) => Token(l)
    case GotoCmd(l) => Token(l)
    case IfGotoCmd(l) => Token(l)
    case FunctionCmd(f, _) => Token(f)
    case CallCmd(f, _) => Token(f)
    case ReturnCmd => true
  }

  /** A command written in the VM language's concrete syntax, one space between parts. */
  function Format(cmd: VmCommand): string {
    match cmd
    case ArithmeticCmd(op) => op
    case PushCmd(s, i) => "push" + " " + s + " " + NatStr(i)
    case PopCmd(s, i) => "pop" + " " + s + " " + NatStr(i)
    case LabelCmd(l) => "label" + " " + l
    case GotoCmd(l) => "goto" + " " + l
    case IfGotoCmd(l) => "if-goto" + " " + l
    case FunctionCmd(f, n) => "function" + " " + f + " " + NatStr(n)
    case CallCmd(f, n) => "call" + " " + f + " " + NatStr(n)
    case ReturnCmd => "return"
  }

  function TypeOf(cmd: VmCommand): CommandType {
    match cmd
    case ArithmeticCmd(_) => Arithmetic
    case PushCmd(_, _) => Push
    case PopCmd(_, _) => Pop
    case LabelCmd(_) => Label
    case GotoCmd(_) => Goto
    case IfGotoCmd(_) => If
    case FunctionCmd(_, _) => Function
    case CallCmd(_, _) => Call
    case ReturnCmd => Return
  }

  lemma FirstIndexAt(s: string, p: char -> bool, k: nat)
    requires k < |s| && p(s[k]) && forall j :: 0 <= j < k ==> !p(s[j])
    ensures FirstIndex(s, p) == Some(k)
  {
  }

  lemma LastIndexAt(s: string, p: char -> bool, k: nat)
    requires k < |s| && p(s[k]) && forall j :: k < j < |s| ==> !p(s[j])
    ensures LastIndex(s, p) == Some(k)
  {
  }

  lemma {:induction false} TwoOperandLine(kw: string, a: string, n: nat)
    requires kw != [] && NoSpace(kw) && Token(a)
    ensures var c := kw + " " + a + " " + NatStr(n);
      && FirstIndex(c, IsBlank) == Some(|kw|)
      && LastIndex(c, IsBlank) == Some(|kw| + 1 + |a|)
      && c[|kw| + 1..|kw| + 1 + |a|] == a
      && c[|kw| + 1 + |a| + 1..] == NatStr(n)
  {
    TwoOperandFirst(kw, a, NatStr(n));
    TwoOperandLast(kw, a, NatStr(n));
    TwoOperandParts(kw, a, NatStr(n));
  }

  lemma TwoOperandFirst(kw: string, a: string, d: string)
    requires NoSpace(kw)
    ensures FirstIndex(kw + " " + a + " " + d, IsBlank) == Some(|kw|)
  {
    var c := kw + " " + a + " " + d;
    assert forall j :: 0 <= j < |kw| ==> c[j] == kw[j];
    FirstIndexAt(c, IsBlank, |kw|);
  }

  lemma TwoOperandLast(kw: string, a: string, d: string)
    requires NoSpace(d)
    ensures LastIndex(kw + " " + a + " " + d, IsBlank).Some?
    ensures LastIndex(kw + " " + a + " " + d, IsBlank).value == |kw| + 1 + |a|
  {
    var u := kw + " " + a;
    assert |u| == |kw| + 1 + |a|;
    LastBlankBefore(u, d);
  }

  lemma LastBlankBefore(u: string, d: string)
    requires NoSpace(d)
    ensures LastIndex(u + " " + d, IsBlank).Some?
    ensures LastIndex(u + " " + d, IsBlank).value == |u|
  {
    assert forall j :: 0 <= j < |d| ==> !IsBlank(d[j]);
    LastBeforeTail(u + " ", d, IsBlank);
  }

  /** When no character of d satisfies p, the last match in v + d is the end of v if that matches. */
  lemma LastBeforeTail(v: string, d: string, p: char -> bool)
    requires v != [] && p(v[|v| - 1])
    requires forall j :: 0 <= j < |d| ==> !p(d[j])
    ensures LastIndex(v + d, p).Some? && LastIndex(v + d, p).value == |v| - 1
  {
    var c := v + d;
    forall j | |v| <= j < |c|
      ensures !p(c[j])
    {
      assert c[j] == d[j - |v|];
    }
    LastIndexAt(c, p, |v| - 1);
  }

  lemma TwoOperandParts(kw: string, a: string, d: string)
    ensures var c := kw + " " + a + " " + d;
      c[|kw| + 1..|kw| + 1 + |a|] == a && c[|kw| + 1 + |a| + 1..] == d
  {
    var c := kw + " " + a + " " + d;
    assert forall j :: 0 <= j < |a| ==> c[|kw| + 1 + j] == a[j];
    assert forall j :: 0 <= j < |d| ==> c[|kw| + 1 + |a| + 1 + j] == d[j];
  }

  lemma {:induction false} OneOperandLine(kw: string, a: string)
    requires kw != [] && NoSpace(kw) && Token(a)
    ensures var c := kw + " " + a;
      && FirstIndex(c, IsBlank) == Some(|kw|)
      && c[|kw| + 1..] == a
  {
    var c := kw + " " + a;
    assert forall j :: 0 <= j < |kw| ==> c[j] == kw[j];
    FirstIndexAt(c, IsBlank, |kw|);
    assert c[|kw| + 1..] == a;
  }

  lemma OperandBetweenBlanks(t: CommandType, c: string, i: nat, j: nat)
    requires HasTwoOperands(t)
    requires FirstIndex(c, IsBlank) == Some(i) && LastIndex(c, IsBlank) == Some(j) && i < j
    ensures Operand1(t, c) == c[i + 1..j]
  {
  }

  lemma ArgAfterBlank(c: string, i: nat)
    requires Classify(c) in {Label, Goto, If}
    requires FirstIndex(c, IsBlank) == Some(i)
    ensures Arg1(c) == c[i + 1..]
  {
  }

  lemma {:induction false} TwoOperandArgs(kw: string, a: string, n: nat)
    requires kw != [] && NoSpace(kw) && Token(a)
    requires HasTwoOperands(Classify(kw + " " + a + " " + NatStr(n)))
    ensures var c := kw + " " + a + " " + NatStr(n);
      Arg1(c) == a && Arg2(c) == Some(n)
  {
    var c := kw + " " + a + " " + NatStr(n);
    TwoOperandLine(kw, a, n);
    OperandBetweenBlanks(Classify(c), c, |kw|, |kw| + 1 + |a|);
    StoiNatStr(n);
  }

  lemma {:induction false} TwoOperandClean(kw: string, a: string, n: nat)
    requires kw != [] && NoSpace(kw) && NoComment(kw) && Token(a)
    ensures var c := kw + " " + a + " " + NatStr(n);
      CleanLine(c) == Some(c)
  {
    var c := kw + " " + a + " " + NatStr(n);
    assert Join(Join(kw, a), NatStr(n)) == c;
    FormatIsClean(kw, a, NatStr(n), c);
  }

  lemma NotPrefixAt(p: string, c: string, k: nat)
    requires k < |p| && k < |c| && p[k] != c[k]
    ensures !(p <= c)
  {
  }

  lemma PrefixOf(p: string, rest: string)
    ensures p <= p + rest
  {
    assert (p + rest)[..|p|] == p;
  }

  /** Each keyword, followed by anything, is classified as its own command type. */
  lemma ClassifyKeyword(cmd: VmCommand, rest: string)
    requires !cmd.ArithmeticCmd?
    ensures Classify(Keyword(cmd) + rest) == TypeOf(cmd)
  {
    PrefixOf(Keyword(cmd), rest);
  }

  /** The keyword a command is written with. */
  function Keyword(cmd: VmCommand): string
    requires !cmd.ArithmeticCmd?
  {
    TypeKeyword(TypeOf(cmd))
  }

  /**
   * What the translator's dispatch reads from a stored command line: the
   * type, then `arg1` and, for push, pop, function and call, `arg2`; None
   * where `stoi` finds no number to read.
   */
  function Decode(c: string): (r: Option<VmCommand>)
  {
    DecodeAs(Classify(c), c)
  }

  /** Decode once the command type t of c is known. */
  function DecodeAs(t: CommandType, c: string): (r: Option<VmCommand>)
    ensures r.Some? ==> TypeOf(r.value) == t
    ensures r.None? <==> HasTwoOperands(t) && Arg2(c).None?
  {
    Assemble(t, c, Operand1(t, c), Arg2(c))
  }

  /**
   * The command of type t read from line c with first operand a and second
   * operand n; None when a two-operand command has no number.
   */
  function Assemble(t: CommandType, c: string, a: string, n: Option<nat>): (r: Option<VmCommand>)
    ensures r.Some? ==> TypeOf(r.value) == t
    ensures r.None? <==> HasTwoOperands(t) && n.None?
  {
    match t
    case Arithmetic => Some(ArithmeticCmd(c))
    case Push => if n.None? then None else Some(PushCmd(a, n.value))
    case Pop => if n.None? then None else Some(PopCmd(a, n.value))
    case Label => Some(LabelCmd(a))
    case Goto => Some(GotoCmd(a))
    case If => Some(IfGotoCmd(a))
    case Function => if n.None? then None else Some(FunctionCmd(a, n.value))
    case Return => Some(ReturnCmd)
    case Call => if n.None? then None else Some(CallCmd(a, n.value))
  }

  lemma {:induction false} TwoOperandCmdClean(cmd: VmCommand)
    requires WellFormed(cmd) && (cmd.PushCmd? || cmd.PopCmd? || cmd.FunctionCmd? || cmd.CallCmd?)
    ensures CleanLine(Format(cmd)) == Some(Format(cmd))
  {
    var kw := Keyword(cmd);
    match cmd
    case PushCmd(a, n) =>
      assert Format(cmd) == kw + " " + a + " " + NatStr(n);
      TwoOperandClean(kw, a, n);
    case PopCmd(a, n) =>
      assert Format(cmd) == kw + " " + a + " " + NatStr(n);
      TwoOperandClean(kw, a, n);
    case FunctionCmd(a, n) =>
      assert Format(cmd) == kw + " " + a + " " + NatStr(n);
      TwoOperandClean(kw, a, n);
    case CallCmd(a, n) =>
      assert Format(cmd) == kw + " " + a + " " + NatStr(n);
      TwoOperandClean(kw, a, n);
  }

  lemma {:induction false} OneOperandCmdClean(cmd: VmCommand)
    requires WellFormed(cmd) && (cmd.LabelCmd? || cmd.GotoCmd? || cmd.IfGotoCmd?)
    ensures CleanLine(Format(cmd)) == Some(Format(cmd))
  {
    var kw := Keyword(cmd);
    var c := kw + " " + cmd.name;
    assert Format(cmd) == c;
    assert Join(Join(kw, cmd.name), "") == c;
    FormatIsClean(kw, cmd.name, "", c);
  }

  lemma {:induction false} ReturnRoundTrip()
    ensures CleanLine("return") == Some("return") && Decode("return") == Some(ReturnCmd)
  {
    ReturnClean();
    var c := "return";
    NotPrefixAt("push", c, 0);
    NotPrefixAt("pop", c, 0);
    NotPrefixAt("label", c, 0);
    NotPrefixAt("goto", c, 0);
    NotPrefixAt("if-goto", c, 0);
    NotPrefixAt("function", c, 0);
    assert c <= c;
    DecodeReturn(c);
  }

  lemma DecodeReturn(c: string)
    requires Classify(c) == Return
    ensures Decode(c) == Some(ReturnCmd)
  {
  }

  lemma {:induction false} ReturnClean()
    ensures CleanLine("return") == Some("return")
  {
    var c := "return";
    assert NoSpace(c) && NoComment(c) by {
      assert forall j :: 0 <= j < |c| ==> !IsSpace(c[j]);
      assert forall j :: 0 <= j < |c| ==> c[j] != '/';
    }
    assert Join(Join(c, ""), "") == c;
    FormatIsClean(c, "", "", c);
  }

  /** A two-operand command line is read as its type with its operand and number. */
  lemma {:induction false} TwoOperandDecode(t: CommandType, a: string, n: nat)
    requires HasTwoOperands(t) && Token(a)
    ensures var c := TypeKeyword(t) + " " + a + " " + NatStr(n);
      Decode(c) == Assemble(t, c, a, Some(n))
  {
    var kw := TypeKeyword(t);
    var rest := " " + a + " " + NatStr(n);
    var c := kw + rest;
    assert kw + " " + a + " " + NatStr(n) == c;
    assert Classify(c) == t by {
      PrefixOf(kw, rest);
    }
    assert kw != [] && NoSpace(kw);
    TwoOperandArgs(kw, a, n);
  }

  lemma PushDecode(a: string, n: nat)
    requires Token(a)
    ensures Decode(Format(PushCmd(a, n))) == Some(PushCmd(a, n))
  {
    TwoOperandDecode(Push, a, n);
    assert Format(PushCmd(a, n)) == TypeKeyword(Push) + " " + a + " " + NatStr(n);
  }

  lemma PopDecode(a: string, n: nat)
    requires Token(a)
    ensures Decode(Format(PopCmd(a, n))) == Some(PopCmd(a, n))
  {
    TwoOperandDecode(Pop, a, n);
    assert Format(PopCmd(a, n)) == TypeKeyword(Pop) + " " + a + " " + NatStr(n);
  }

  lemma FunctionDecode(a: string, n: nat)
    requires Token(a)
    ensures Decode(Format(FunctionCmd(a, n))) == Some(FunctionCmd(a, n))
  {
    TwoOperandDecode(Function, a, n);
    assert Format(FunctionCmd(a, n)) == TypeKeyword(Function) + " " + a + " " + NatStr(n);
  }

  lemma CallDecode(a: string, n: nat)
    requires Token(a)
    ensures Decode(Format(CallCmd(a, n))) == Some(CallCmd(a, n))
  {
    TwoOperandDecode(Call, a, n);
    assert Format(CallCmd(a, n)) == TypeKeyword(Call) + " " + a + " " + NatStr(n);
  }

  lemma {:induction false} LabelDecode(a: string)
    requires Token(a)
    ensures Decode(Format(LabelCmd(a))) == Some(LabelCmd(a))
  {
    var c := "label" + " " + a;
    assert Format(LabelCmd(a)) == c;
    assert Classify(c) == Label by {
      ClassifyKeyword(LabelCmd(a), " " + a);
    }
    OneOperandLine("label", a);
    ArgAfterBlank(c, |"label"|);
  }

  lemma {:induction false} GotoDecode(a: string)
    requires Token(a)
    ensures Decode(Format(GotoCmd(a))) == Some(GotoCmd(a))
  {
    var c := "goto" + " " + a;
    assert Format(GotoCmd(a)) == c;
    assert Classify(c) == Goto by {
      ClassifyKeyword(GotoCmd(a), " " + a);
    }
    OneOperandLine("goto", a);
    ArgAfterBlank(c, |"goto"|);
  }

  lemma {:induction false} IfGotoDecode(a: string)
    requires Token(a)
    ensures Decode(Format(IfGotoCmd(a))) == Some(IfGotoCmd(a))
  {
    var c := "if-goto" + " " + a;
    assert Format(IfGotoCmd(a)) == c;
    assert Classify(c) == If by {
      ClassifyKeyword(IfGotoCmd(a), " " + a);
    }
    OneOperandLine("if-goto", a);
    ArgAfterBlank(c, |"if-goto"|);
  }

  /** The dispatch reads every well-formed command back from its written form. */
  lemma {:induction false} FormatDecode(cmd: VmCommand)
    requires WellFormed(cmd)
    ensures Decode(Format(cmd)) == Some(cmd)
  {
    match cmd
    case ArithmeticCmd(op) =>
    case ReturnCmd => ReturnRoundTrip();
    case LabelCmd(l) => LabelDecode(l);
    case GotoCmd(l) => GotoDecode(l);
    case IfGotoCmd(l) => IfGotoDecode(l);
    case PushCmd(seg, i) => PushDecode(seg, i);
    case PopCmd(seg, i) => PopDecode(seg, i);
    case FunctionCmd(f, k) => FunctionDecode(f, k);
    case CallCmd(f, k) => CallDecode(f, k);
  }

  /** The written form of a well-formed command is already a stored command line. */
  lemma {:induction false} FormatClean(cmd: VmCommand)
    requires WellFormed(cmd)
    ensures CleanLine(Format(cmd)) == Some(Format(cmd))
  {
    match cmd
    case ArithmeticCmd(op) =>
      assert Join(Join("", op), "") == op;
      FormatIsClean("", op, "", op);
    case ReturnCmd =>
      ReturnRoundTrip();
    case LabelCmd(_) => OneOperandCmdClean(cmd);
    case GotoCmd(_) => OneOperandCmdClean(cmd);
    case IfGotoCmd(_) => OneOperandCmdClean(cmd);
    case PushCmd(_, _) => TwoOperandCmdClean(cmd);
    case PopCmd(_, _) => TwoOperandCmdClean(cmd);
    case FunctionCmd(_, _) => TwoOperandCmdClean(cmd);
    case CallCmd(_, _) => TwoOperandCmdClean(cmd);
  }

  /**
   * A well-formed command written in the VM language's syntax is a stored
   * command line as it stands, and the dispatch reads the same command back.
   */
  lemma FormatRoundTrip(cmd: VmCommand)
    requires WellFormed(cmd)
    ensures CleanLine(Format(cmd)) == Some(Format(cmd))
    ensures Decode(Format(cmd)) == Some(cmd)
  {
    FormatClean(cmd);
    FormatDecode(cmd);
  }

  /** Up to three tokens joined by single spaces form a stored command line. */
  lemma {:induction false} FormatIsClean(kw: string, a: string, b: string, c: string)
    requires NoSpace(kw) && NoComment(kw) && NoSpace(a) && NoComment(a) && NoSpace(b) && NoComment(b)
    requires kw != [] || a != [] || b != []
    requires c == Join(Join(kw, a), b)
    ensures IsCleanCommand(c) && CleanLine(c) == Some(c)
  {
    JoinClean(kw, a);
    JoinClean(Join(kw, a), b);
    CleanLineOfClean(c);
  }

  /** x and y joined by one space, or whichever is non-empty. */
  function Join(x: string, y: string): string {
    if x == [] then y else if y == [] then x else x + " " + y
  }

  lemma {:induction false} JoinClean(x: string, y: string)
    requires x == [] || IsCleanCommand(x) || NoSpace(x)
    requires NoComment(x) && NoSpace(y) && NoComment(y)
    ensures Join(x, y) != [] ==> IsCleanCommand(Join(x, y))
  {
    if x != [] && y != [] {
      var c := x + " " + y;
      assert c[0] == x[0] && c[|c| - 1] == y[|y| - 1];
      assert !IsSpace(x[|x| - 1]);
      JoinNoDoubleSpace(x, y);
      JoinNoComment(x, y);
    }
  }

  /** One space between texts with no double space, the first not ending in one and the second with none, makes no double space. */
  lemma {:induction false} JoinNoDoubleSpace(x: string, y: string)
    requires x != [] && !IsSpace(x[|x| - 1]) && NoDoubleSpace(x) && NoSpace(y)
    ensures NoDoubleSpace(x + " " + y)
  {
    var c := x + " " + y;
    forall j | 0 <= j < |c| - 1
      ensures !(IsSpace(c[j]) && IsSpace(c[j + 1]))
    {
      if j < |x| - 1 {
        assert c[j] == x[j] && c[j + 1] == x[j + 1];
      } else if j == |x| - 1 {
        assert c[j] == x[j];
      } else {
        assert c[j + 1] == y[j - |x|];
      }
    }
  }

  /** A space between two texts without "//" makes no "//". */
  lemma {:induction false} JoinNoComment(x: string, y: string)
    requires NoComment(x) && NoComment(y)
    ensures NoComment(x + " " + y)
  {
    var c := x + " " + y;
    forall j | 0 <= j < |c|
      ensures !CommentAt(c, j)
    {
      if j < |x| - 1 {
        assert c[j] == x[j] && c[j + 1] == x[j + 1];
        assert !CommentAt(x, j);
      } else if j > |x| {
        assert c[j] == y[j - |x| - 1];
        assert j + 1 < |c| ==> c[j + 1] == y[j - |x|];
        assert !CommentAt(y, j - |x| - 1);
      }
    }
  }
}
