/**
 * The Parser of the Hack assembler (06/assembler.cpp): it strips every
 * whitespace character and comment from the source lines, keeps the
 * non-empty ones, tells A-, L- and C-commands apart and splits a C-command
 * into its dest, comp and jump fields.
 */
module AsmParser {
  import opened Text

  // ---------------------------------------------------------------------
  // Cleaning
  // ---------------------------------------------------------------------

  /**
   * What the Parser keeps of a source line: every whitespace character is
   * removed first and the rest is cut at the first "//"; an empty result
   * is not stored.
   */
  function CleanAsmLine(line: string): (r: Option<string>)
    ensures r.Some? ==> r.value != [] && NoSpace(r.value) && NoComment(r.value)
    ensures r.Some? ==> r.value <= NonSpace(line)
    ensures r.None? <==> CutComment(NonSpace(line)) == []
  {
    var t := CutComment(NonSpace(line));
    NoSpacePrefix(t, NonSpace(line));
    if t == [] then None else Some(t)
  }

  lemma NoSpacePrefix(p: string, s: string)
    requires p <= s && NoSpace(s)
    ensures NoSpace(p)
  {
    assert forall i :: 0 <= i < |p| ==> p[i] == s[i];
  }

  /** A stored command is left as it is by the cleaning. */
  lemma CleanAsmLineClean(c: string)
    requires c != [] && NoSpace(c) && NoComment(c)
    ensures CleanAsmLine(c) == Some(c)
  {
    NonSpaceOfNoSpace(c);
    CutCommentOfNoComment(c);
  }

  lemma CutCommentOfNoComment(s: string)
    requires NoComment(s)
    ensures CutComment(s) == s
  {
    assert FindComment(s).None?;
  }

  /** Cleaning a cleaned line changes nothing. */
  lemma CleanAsmLineIdempotent(line: string)
    requires CleanAsmLine(line).Some?
    ensures CleanAsmLine(CleanAsmLine(line).value) == CleanAsmLine(line)
  {
    CleanAsmLineClean(CleanAsmLine(line).value);
  }

  /**
   * Whitespace goes before the comment is looked for, so a "/ /" with a
   * space inside still starts a comment: the command a is all that is kept.
   */
  lemma SpacedMarkerIsComment(a: string, b: string)
    requires IsAsmCommand(a) && a[|a| - 1] != '/'
    ensures CleanAsmLine(a + "/ /" + b) == Some(a)
  {
    NonSpaceAppend(a + "/ /", b);
    NonSpaceAppend(a, "/ /");
    NonSpaceOfNoSpace(a);
    assert NonSpace("/ /") == "//" by {
      assert "/ /" == "/" + (" " + "/");
      NonSpaceAppend("/", " " + "/");
      NonSpaceAppend(" ", "/");
    }
    var t := a + "//" + NonSpace(b);
    assert t[..|a|] == a;
    assert t[|a|] == '/' && t[|a| + 1] == '/';
    forall j | 0 <= j < |a|
      ensures !CommentAt(t, j)
    {
      if j < |a| - 1 {
        assert !CommentAt(a, j);
      }
    }
    CutCommentAt(t, |a|);
  }

  lemma CutCommentAt(s: string, k: nat)
    requires CommentAt(s, k) && forall j :: 0 <= j < k ==> !CommentAt(s, j)
    ensures CutComment(s) == s[..k]
  {
    assert FindComment(s) == Some(k);
  }

  /** The commands a cleaned line contributes: none for an empty one. */
  function KeptAsm(c: Option<string>): (r: seq<string>)
    ensures |r| == if c.Some? then 1 else 0
  {
    match c
    case None => []
    case Some(s) => [s]
  }

  /** The `commands` vector the Parser fills: the cleaned non-empty lines, in order. */
  function CleanAsmAll(lines: seq<string>): (cmds: seq<string>)
    ensures |cmds| <= |lines|
  {
    if lines == [] then []
    else CleanAsmAll(lines[..|lines| - 1]) + KeptAsm(CleanAsmLine(lines[|lines| - 1]))
  }

  /** A stored command. */
  predicate IsAsmCommand(c: string) {
    c != [] && NoSpace(c) && NoComment(c)
  }

  /** Every stored command is non-empty and free of whitespace and comments. */
  lemma {:induction false} CleanAsmAllClean(lines: seq<string>)
    ensures forall k :: 0 <= k < |CleanAsmAll(lines)| ==> IsAsmCommand(CleanAsmAll(lines)[k])
  {
    if lines != [] {
      CleanAsmAllClean(lines[..|lines| - 1]);
    }
  }

  /** Commands keep the order of their lines: those of a first part, then those of the rest. */
  lemma {:induction false} CleanAsmAllAppend(a: seq<string>, b: seq<string>)
    ensures CleanAsmAll(a + b) == CleanAsmAll(a) + CleanAsmAll(b)
    decreases |b|
  {
    if b == [] {
      assert a + b == a;
    } else {
      var init := b[..|b| - 1];
      var x := KeptAsm(CleanAsmLine(b[|b| - 1]));
      assert (a + b)[..|a + b| - 1] == a + init;
      assert (a + b)[|a + b| - 1] == b[|b| - 1];
      assert CleanAsmAll(a + b) == CleanAsmAll(a + init) + x;
      CleanAsmAllAppend(a, init);
      SeqAssoc(CleanAsmAll(a), CleanAsmAll(init), x);
    }
  }

  lemma SeqAssoc<T>(p: seq<T>, q: seq<T>, r: seq<T>)
    ensures (p + q) + r == p + (q + r)
  {
  }

  lemma CleanAsmAllStep(lines: seq<string>, k: nat)
    requires k < |lines|
    ensures CleanAsmAll(lines[..k + 1]) == CleanAsmAll(lines[..k]) + KeptAsm(CleanAsmLine(lines[k]))
  {
    assert lines[..k + 1][..k] == lines[..k];
  }

  /** The loop of the Parser's constructor. */
  method ReadAsmCommands(lines: seq<string>) returns (cmds: seq<string>)
    ensures cmds == CleanAsmAll(lines)
  {
    cmds := [];
    var k := 0;
    while k < |lines|
      invariant 0 <= k <= |lines|
      invariant cmds == CleanAsmAll(lines[..k])
    {
      var c := CleanAsmLine(lines[k]);
      CleanAsmAllStep(lines, k);
      cmds := cmds + KeptAsm(c);
      k := k + 1;
    }
    assert lines[..k] == lines;
  }

  class Parser {
    var commands: seq<string>
    var idx: nat
    var currentCommand: string

    /** Reads the file's lines; the index starts at the first command. */
    constructor (lines: seq<string>)
      ensures commands == CleanAsmAll(lines) && idx == 0 && currentCommand == ""
    {
      var cmds := ReadAsmCommands(lines);
      commands := cmds;
      idx := 0;
      currentCommand := "";
    }

    predicate HasMoreCommands()
      reads this
    {
      idx < |commands|
    }

    method Advance()
      requires HasMoreCommands()
      modifies this
      ensures currentCommand == old(commands[idx])
      ensures idx == old(idx) + 1 && commands == old(commands)
    {
      currentCommand := commands[idx];
      idx := idx + 1;
    }

    /** `reset`: the next command is the first one again. */
    method Reset()
      modifies this
      ensures idx == 0 && commands == old(commands) && currentCommand == old(currentCommand)
    {
      idx := 0;
    }
  }

  // ---------------------------------------------------------------------
  // Command kinds and fields
  // ---------------------------------------------------------------------

  datatype CommandKind = ACommand | LCommand | CCommand

  /**
   * `commandType`: by the first character. An empty string reads its
   * terminating '\0' there and counts as a C-command.
   */
  function KindOf(c: string): (k: CommandKind)
    ensures k == ACommand <==> c != [] && c[0] == '@'
    ensures k == LCommand <==> c != [] && c[0] == '('
  {
    if c != [] && c[0] == '@' then ACommand
    else if c != [] && c[0] == '(' then LCommand
    else CCommand
  }

  /**
   * `symbol`: after the '@' of an A-command; otherwise `substr(1, size - 2)`,
   * which drops the first and the last character and, for a one-character
   * command, keeps nothing.
   */
  function Symbol(c: string): (s: string)
    requires c != []
    ensures KindOf(c) == ACommand ==> c == "@" + s
    ensures KindOf(c) != ACommand && |c| >= 2 ==> c == [c[0]] + s + [c[|c| - 1]]
    ensures KindOf(c) != ACommand && |c| < 2 ==> s == []
  {
    if KindOf(c) == ACommand then c[1..]
    else if |c| >= 2 then c[1..|c| - 1]
    else []
  }

  /** The symbol of "@s" is s and that of "(s)" is s. */
  lemma SymbolOfCommand(s: string)
    ensures Symbol("@" + s) == s
    ensures KindOf("(" + s + ")") == LCommand && Symbol("(" + s + ")") == s
  {
    var l := "(" + s + ")";
    assert l[1..|l| - 1] == s;
  }

  predicate IsEquals(ch: char) { ch == '=' }
  predicate IsSemicolon(ch: char) { ch == ';' }

  /** `dest`: the text before the first '=', or "null" when there is none. */
  function Dest(c: string): (d: string)
    ensures Lacks(c, IsEquals) ==> d == "null"
    ensures !Lacks(c, IsEquals) ==> d + "=" <= c && Lacks(d, IsEquals)
  {
    match FirstIndex(c, IsEquals)
    case None => "null"
    case Some(i) =>
      assert c[..i + 1] == c[..i] + "=";
      c[..i]
  }

  /**
   * `comp`: from after the first '=' (or the start) up to the first ';'
   * (or the end). When the ';' comes before the '=' the length
   * `j - i - 1` is negative, which `substr` takes as "to the end".
   */
  function Comp(c: string): (cp: string)
    // With no '=' and no ';' the whole command is the computation.
    ensures Lacks(c, IsEquals) && Lacks(c, IsSemicolon) ==> cp == c
    // When the fields are in order, the computation holds no ';' and the
    // command ends with it followed by the text from the first ';' on.
    ensures InOrder(c) ==> var t := cp + JumpRest(c);
      Lacks(cp, IsSemicolon) && |t| <= |c| && c[|c| - |t|..] == t
    // Otherwise it is everything after the first '='.
    ensures !InOrder(c) ==> c[..FirstIndex(c, IsEquals).value + 1] + cp == c
  {
    var i: int := match FirstIndex(c, IsEquals) case None => -1 case Some(k) => k;
    var j: int := match FirstIndex(c, IsSemicolon) case None => |c| case Some(k) => k;
    if j - i - 1 >= 0 then
      assert JumpRest(c) == c[j..];
      CompSpan(c, i, j);
      c[i + 1..j]
    else
      assert c[..i + 1] + c[i + 1..] == c;
      c[i + 1..]
  }

  /** The text strictly between i and a j before which there is no ';', followed by the rest from j. */
  lemma CompSpan(c: string, i: int, j: int)
    requires -1 <= i < j <= |c|
    requires forall k :: 0 <= k < j ==> !IsSemicolon(c[k])
    ensures Lacks(c[i + 1..j], IsSemicolon)
    ensures c[i + 1..j] + c[j..] == c[i + 1..]
  {
  }

  /** `jump`: the text after the first ';', or "null" when there is none. */
  function Jump(c: string): (j: string)
    ensures Lacks(c, IsSemicolon) ==> j == "null"
    ensures !Lacks(c, IsSemicolon) ==>
      |j| < |c| && c[|c| - |j| - 1..] == ";" + j && Lacks(c[..|c| - |j| - 1], IsSemicolon)
  {
    match FirstIndex(c, IsSemicolon)
    case None => "null"
    case Some(k) =>
      assert c[k..] == ";" + c[k + 1..];
      c[k + 1..]
  }

  /** The rest of a command from its first ';' on, or nothing when it has none. */
  function JumpRest(c: string): string {
    match FirstIndex(c, IsSemicolon)
    case None => ""
    case Some(k) => c[k..]
  }

  predicate Lacks(s: string, p: char -> bool) {
    forall k :: 0 <= k < |s| ==> !p(s[k])
  }

  /** The C-command with these fields: "d=" only when d is present, ";j" only when j is. */
  function Build(d: Option<string>, cp: string, j: Option<string>): string {
    (if d.Some? then d.value + "=" else "") + cp + (if j.Some? then ";" + j.value else "")
  }

  /**
   * Splitting a built command gives back its fields, as long as the dest
   * has no '=' and neither the dest nor the comp has a ';' (and, with no
   * dest, neither the comp nor the jump has a '=').
   */
  lemma FieldsOfBuild(d: Option<string>, cp: string, j: Option<string>)
    requires FieldsApart(d, cp, j)
    ensures var c := Build(d, cp, j);
      && Dest(c) == (if d.Some? then d.value else "null")
      && Comp(c) == cp
      && Jump(c) == (if j.Some? then j.value else "null")
  {
    DestOfBuild(d, cp, j);
    CompOfBuild(d, cp, j);
    JumpOfBuild(d, cp, j);
  }

  /** The condition under which the fields of a built command can be told apart. */
  predicate FieldsApart(d: Option<string>, cp: string, j: Option<string>) {
    && (d.Some? ==> Lacks(d.value, IsEquals) && Lacks(d.value, IsSemicolon))
    && (d.None? ==> Lacks(cp, IsEquals) && (j.Some? ==> Lacks(j.value, IsEquals)))
    && Lacks(cp, IsSemicolon)
  }

  function Prefix(d: Option<string>): string {
    if d.Some? then d.value + "=" else ""
  }

  function Suffix(j: Option<string>): string {
    if j.Some? then ";" + j.value else ""
  }

  lemma BuildParts(d: Option<string>, cp: string, j: Option<string>)
    ensures Build(d, cp, j) == Prefix(d) + (cp + Suffix(j))
  {
    SeqAssoc(Prefix(d), cp, Suffix(j));
  }

  lemma DestOfBuild(d: Option<string>, cp: string, j: Option<string>)
    requires FieldsApart(d, cp, j)
    ensures Dest(Build(d, cp, j)) == if d.Some? then d.value else "null"
  {
    BuildParts(d, cp, j);
    EqualsOfBuild(d, cp, Suffix(j));
    if d.Some? {
      Parts(Prefix(d), cp, Suffix(j));
      assert Prefix(d)[..|d.value|] == d.value;
    }
  }

  lemma CompOfBuild(d: Option<string>, cp: string, j: Option<string>)
    requires FieldsApart(d, cp, j)
    ensures Comp(Build(d, cp, j)) == cp
  {
    BuildParts(d, cp, j);
    EqualsOfBuild(d, cp, Suffix(j));
    SemicolonOfBuild(Prefix(d), cp, j);
    Parts(Prefix(d), cp, Suffix(j));
  }

  lemma JumpOfBuild(d: Option<string>, cp: string, j: Option<string>)
    requires FieldsApart(d, cp, j)
    ensures Jump(Build(d, cp, j)) == if j.Some? then j.value else "null"
  {
    var u := Prefix(d) + cp;
    assert Lacks(Prefix(d), IsSemicolon);
    LacksAppend(Prefix(d), cp, IsSemicolon);
    JumpAfter(u, j);
  }

  /** After a head without ';', the jump is what follows the ';' of the suffix. */
  lemma JumpAfter(u: string, j: Option<string>)
    requires Lacks(u, IsSemicolon)
    ensures Jump(u + Suffix(j)) == if j.Some? then j.value else "null"
  {
    FirstAfter(u, Suffix(j), IsSemicolon);
    if j.Some? {
      assert Suffix(j)[0] == ';';
      assert (u + Suffix(j))[|u| + 1..] == j.value;
    } else {
      assert u + Suffix(j) == u;
    }
  }

  /** The dest of a command that has a '=', else nothing. */
  function DestPart(c: string): (d: Option<string>)
    ensures d.Some? <==> FirstIndex(c, IsEquals).Some?
  {
    if FirstIndex(c, IsEquals).Some? then Some(Dest(c)) else None
  }

  /** The jump of a command that has a ';', else nothing. */
  function JumpPart(c: string): (j: Option<string>)
    ensures j.Some? <==> FirstIndex(c, IsSemicolon).Some?
  {
    if FirstIndex(c, IsSemicolon).Some? then Some(Jump(c)) else None
  }

  /** The first '=', if any, comes before the first ';', if any. */
  predicate InOrder(c: string) {
    FirstIndex(c, IsEquals).Some? && FirstIndex(c, IsSemicolon).Some? ==>
      FirstIndex(c, IsEquals).value < FirstIndex(c, IsSemicolon).value
  }

  /** Putting the fields of a command back together gives the command. */
  lemma BuildOfFields(c: string)
    requires InOrder(c)
    ensures Build(DestPart(c), Comp(c), JumpPart(c)) == c
  {
    var e := FirstIndex(c, IsEquals);
    var s := FirstIndex(c, IsSemicolon);
    if e.Some? && s.Some? {
      BuildBoth(c, e.value, s.value);
    } else if e.Some? {
      BuildDestOnly(c, e.value);
    } else if s.Some? {
      BuildJumpOnly(c, s.value);
    } else {
      assert Comp(c) == c[0..|c|];
      assert c[0..|c|] == c;
    }
  }

  lemma BuildBoth(c: string, i: nat, k: nat)
    requires FirstIndex(c, IsEquals).Some? && FirstIndex(c, IsEquals).value == i
    requires FirstIndex(c, IsSemicolon).Some? && FirstIndex(c, IsSemicolon).value == k
    requires i < k
    ensures Build(DestPart(c), Comp(c), JumpPart(c)) == c
  {
    assert Comp(c) == c[i + 1..k];
    assert c[i] == '=' && c[k] == ';';
    Split3(c, i, k);
  }

  lemma BuildDestOnly(c: string, i: nat)
    requires FirstIndex(c, IsEquals).Some? && FirstIndex(c, IsEquals).value == i
    requires FirstIndex(c, IsSemicolon).None?
    ensures Build(DestPart(c), Comp(c), JumpPart(c)) == c
  {
    assert DestPart(c) == Some(c[..i]);
    assert Comp(c) == c[i + 1..];
    assert JumpPart(c) == None;
    DestAround(c, i);
  }

  lemma DestAround(c: string, i: nat)
    requires i < |c| && c[i] == '='
    ensures Build(Some(c[..i]), c[i + 1..], None) == c
  {
    assert c == c[..i] + "=" + c[i + 1..];
  }

  lemma BuildJumpOnly(c: string, k: nat)
    requires FirstIndex(c, IsEquals).None?
    requires FirstIndex(c, IsSemicolon).Some? && FirstIndex(c, IsSemicolon).value == k
    ensures Build(DestPart(c), Comp(c), JumpPart(c)) == c
  {
    var cp, j := c[..k], c[k + 1..];
    assert DestPart(c) == None;
    assert Comp(c) == cp;
    assert JumpPart(c) == Some(j);
    assert Build(None, cp, Some(j)) == cp + (";" + j);
    assert c[k] == ';';
    assert c == cp + (";" + j);
  }

  lemma Split3(c: string, i: nat, k: nat)
    requires i < k < |c|
    ensures c == c[..i] + [c[i]] + c[i + 1..k] + ([c[k]] + c[k + 1..])
  {
  }

  lemma Parts(pre: string, mid: string, post: string)
    ensures var c := pre + (mid + post);
      && c[..|pre|] == pre
      && c[|pre|..|pre| + |mid|] == mid
      && c[|pre| + |mid|..] == post
      && (|pre| > 0 ==> c[..|pre| - 1] == pre[..|pre| - 1])
      && (|post| > 0 ==> c[|pre| + |mid| + 1..] == post[1..])
  {
  }

  /** In d=cp;j the first '=' ends the dest; with no dest there is none when cp and j have none. */
  lemma EqualsOfBuild(d: Option<string>, cp: string, post: string)
    requires d.Some? ==> Lacks(d.value, IsEquals)
    requires d.None? ==> Lacks(cp, IsEquals) && Lacks(post, IsEquals)
    ensures var pre := if d.Some? then d.value + "=" else "";
      FirstIndex(pre + (cp + post), IsEquals) == if d.Some? then Some(|d.value|) else None
  {
    if d.Some? {
      var rest := cp + post;
      assert d.value + "=" + rest == d.value + ("=" + rest);
      FirstAfter(d.value, "=" + rest, IsEquals);
    } else {
      assert "" + (cp + post) == cp + post;
      FirstAfter(cp, post, IsEquals);
      FirstNone(post, IsEquals);
    }
  }

  /** The first ';' of d=cp;j is the one before j, when the dest and comp have none. */
  lemma SemicolonOfBuild(pre: string, cp: string, j: Option<string>)
    requires Lacks(pre, IsSemicolon) && Lacks(cp, IsSemicolon)
    ensures var post := if j.Some? then ";" + j.value else "";
      FirstIndex(pre + (cp + post), IsSemicolon) == if j.Some? then Some(|pre| + |cp|) else None
  {
    var post := if j.Some? then ";" + j.value else "";
    LacksAppend(pre, cp, IsSemicolon);
    SeqAssoc(pre, cp, post);
    FirstAfter(pre + cp, post, IsSemicolon);
    if j.None? {
      FirstNone(post, IsSemicolon);
    }
  }

  lemma LacksAppend(u: string, v: string, p: char -> bool)
    requires Lacks(u, p) && Lacks(v, p)
    ensures Lacks(u + v, p)
  {
    forall k | 0 <= k < |u + v|
      ensures !p((u + v)[k])
    {
      if k >= |u| {
        assert (u + v)[k] == v[k - |u|];
      }
    }
  }

  /** Past a prefix without a match, the first match is the first match of the rest, shifted. */
  lemma {:induction false} FirstAfter(u: string, v: string, p: char -> bool)
    requires Lacks(u, p)
    ensures FirstIndex(u + v, p) == match FirstIndex(v, p) case None => None case Some(k) => Some(|u| + k)
  {
    if u == [] {
      assert u + v == v;
    } else {
      assert (u + v)[0] == u[0];
      assert (u + v)[1..] == u[1..] + v;
      FirstAfter(u[1..], v, p);
    }
  }

  lemma FirstAt(s: string, p: char -> bool, k: nat)
    requires k < |s| && p(s[k]) && forall j :: 0 <= j < k ==> !p(s[j])
    ensures FirstIndex(s, p) == Some(k)
  {
  }

  lemma FirstNone(s: string, p: char -> bool)
    requires forall j :: 0 <= j < |s| ==> !p(s[j])
    ensures FirstIndex(s, p) == None
  {
  }
}
