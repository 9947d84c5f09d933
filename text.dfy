/**
 * Character classes, decimal numerals and search helpers shared by the
 * two VM translators and the Hack assembler.
 */
module Text {

  datatype Option<T> = None | Some(value: T)

  /** The whitespace the cleaning passes strip: " \t\r". */
  predicate IsSpace(c: char) {
    c == ' ' || c == '\t' || c == '\r'
  }

  /** The separators the operand extraction searches for: " \t". */
  predicate IsBlank(c: char) {
    c == ' ' || c == '\t'
  }

  predicate IsDigit(c: char) {
    '0' <= c <= '9'
  }

  predicate AllDigits(s: string) {
    forall i :: 0 <= i < |s| ==> IsDigit(s[i])
  }

  function DigitValue(c: char): (d: nat)
    requires IsDigit(c)
    ensures d < 10
  {
    c as int - '0' as int
  }

  function DigitChar(d: nat): (c: char)
    requires d < 10
    ensures IsDigit(c) && DigitValue(c) == d
  {
    ('0' as int + d) as char
  }

  /** The decimal text of n, as `operator<<` and `std::to_string` print a non-negative int. */
  function NatStr(n: nat): (s: string)
    ensures |s| > 0 && AllDigits(s)
    ensures n >= 10 ==> s[0] != '0'
  {
    if n < 10 then [DigitChar(n)] else NatStr(n / 10) + [DigitChar(n % 10)]
  }

  /** The value of a string of decimal digits, most significant first. */
  function DigitsValue(s: string): nat
    requires AllDigits(s)
  {
    if s == [] then 0 else DigitsValue(s[..|s| - 1]) * 10 + DigitValue(s[|s| - 1])
  }

  /** The longest prefix of s made of decimal digits. */
  function LeadingDigits(s: string): (p: string)
    ensures p <= s && AllDigits(p)
    ensures |p| < |s| ==> !IsDigit(s[|p|])
  {
    if s != [] && IsDigit(s[0]) then [s[0]] + LeadingDigits(s[1..]) else []
  }

  /**
   * `std::stoi` on the operand text: the value of its leading decimal
   * digits, or None where `stoi` would throw for want of a digit.
   */
  function Stoi(s: string): (r: Option<nat>)
    ensures r.Some? <==> s != [] && IsDigit(s[0])
  {
    var p := LeadingDigits(s);
    if p == [] then None else Some(DigitsValue(p))
  }

  lemma {:induction false} DigitsValueOfNatStr(n: nat)
    ensures DigitsValue(NatStr(n)) == n
  {
    if n >= 10 {
      var s := NatStr(n);
      assert s[..|s| - 1] == NatStr(n / 10);
      DigitsValueOfNatStr(n / 10);
    }
  }

  lemma {:induction false} LeadingDigitsOfDigits(s: string)
    requires AllDigits(s)
    ensures LeadingDigits(s) == s
  {
    if s != [] {
      LeadingDigitsOfDigits(s[1..]);
    }
  }

  /** Printing a number and reading it back with `stoi` gives the number. */
  lemma StoiNatStr(n: nat)
    ensures Stoi(NatStr(n)) == Some(n)
  {
    LeadingDigitsOfDigits(NatStr(n));
    DigitsValueOfNatStr(n);
  }

  /** Distinct numbers print differently, so numbered labels never collide. */
  lemma NatStrInjective(m: nat, n: nat)
    ensures NatStr(m) == NatStr(n) <==> m == n
  {
    if NatStr(m) == NatStr(n) {
      DigitsValueOfNatStr(m);
      DigitsValueOfNatStr(n);
    }
  }

  /** `find_first_of`: the first position whose character satisfies p. */
  function FirstIndex(s: string, p: char -> bool): (r: Option<nat>)
    ensures r.Some? ==> r.value < |s| && p(s[r.value])
    ensures r.Some? ==> forall j :: 0 <= j < r.value ==> !p(s[j])
    ensures r.None? ==> forall j :: 0 <= j < |s| ==> !p(s[j])
  {
    if s == [] then None
    else if p(s[0]) then Some(0)
    else match FirstIndex(s[1..], p)
      case None => None
      case Some(i) => Some(i + 1)
  }

  /** `find_last_of`: the last position whose character satisfies p. */
  function LastIndex(s: string, p: char -> bool): (r: Option<nat>)
    ensures r.Some? ==> r.value < |s| && p(s[r.value])
    ensures r.Some? ==> forall j :: r.value < j < |s| ==> !p(s[j])
    ensures r.None? ==> forall j :: 0 <= j < |s| ==> !p(s[j])
  {
    if s == [] then None
    else if p(s[|s| - 1]) then Some(|s| - 1)
    else LastIndex(s[..|s| - 1], p)
  }

  predicate CommentAt(s: string, i: int) {
    0 <= i && i + 1 < |s| && s[i] == '/' && s[i + 1] == '/'
  }

  /** No "//" anywhere in s. */
  predicate NoComment(s: string) {
    forall i :: 0 <= i < |s| ==> !CommentAt(s, i)
  }

  /** `find("//")`: the first position where a comment marker starts. */
  function FindComment(s: string): (r: Option<nat>)
    ensures r.Some? ==> CommentAt(s, r.value)
    ensures r.Some? ==> forall j :: 0 <= j < r.value ==> !CommentAt(s, j)
    ensures r.None? ==> NoComment(s)
  {
    if |s| < 2 then None
    else if s[0] == '/' && s[1] == '/' then Some(0)
    else match FindComment(s[1..])
      case None =>
        assert forall j :: 1 <= j < |s| ==> CommentAt(s, j) == CommentAt(s[1..], j - 1);
        None
      case Some(i) =>
        assert forall j :: 1 <= j < |s| ==> CommentAt(s, j) == CommentAt(s[1..], j - 1);
        Some(i + 1)
  }

  /** The text before the first "//", or all of s. */
  function CutComment(s: string): (r: string)
    ensures r <= s && NoComment(r)
    ensures |r| < |s| ==> CommentAt(s, |r|)
  {
    match FindComment(s)
    case None => s
    case Some(i) =>
      assert forall j :: 0 <= j < i ==> CommentAt(s[..i], j) ==> CommentAt(s, j);
      s[..i]
  }

  /** A run of characters none of which is a whitespace character. */
  predicate NoSpace(s: string) {
    forall i :: 0 <= i < |s| ==> !IsSpace(s[i])
  }

  /** s with every whitespace character removed. */
  function NonSpace(s: string): (r: string)
    ensures NoSpace(r) && |r| <= |s|
  {
    if s == [] then []
    else if IsSpace(s[0]) then NonSpace(s[1..])
    else [s[0]] + NonSpace(s[1..])
  }

  lemma {:induction false} NonSpaceAppend(a: string, b: string)
    ensures NonSpace(a + b) == NonSpace(a) + NonSpace(b)
  {
    if a == [] {
      assert a + b == b;
    } else {
      assert (a + b)[0] == a[0];
      assert (a + b)[1..] == a[1..] + b;
      NonSpaceAppend(a[1..], b);
    }
  }

  lemma {:induction false} NonSpaceOfNoSpace(s: string)
    requires NoSpace(s)
    ensures NonSpace(s) == s
  {
    if s != [] {
      NonSpaceOfNoSpace(s[1..]);
    }
  }
}
