/**
 * The words the Hack assembler (06/assembler.cpp) writes: a C-instruction
 * packs its comp, dest and jump codes under three leading ones, an
 * A-instruction is its address, and each word is printed as the sixteen
 * binary digits of a `std::bitset<16>`.
 */
module AsmEncode {
  import opened Hack
  import opened AsmCode

  // ---------------------------------------------------------------------
  // The C-instruction word
  // ---------------------------------------------------------------------

  /**
   * `(7 << 13) + (c << 6) + (d << 3) + j`, of which `std::bitset<16>`
   * keeps the low sixteen bits.
   */
  function CWord(c: int, d: int, j: int): Word {
    W(7 * 8192 + c * 64 + d * 8 + j)
  }

  /**
   * With fields in range, the top three bits of a C-word are ones and the
   * comp, dest and jump codes can be read back from their places.
   */
  lemma CWordFields(c: int, d: int, j: int)
    requires 0 <= c < 128 && 0 <= d < 8 && 0 <= j < 8
    ensures var w := CWord(c, d, j);
      && w / 8192 == 7 && (w / 64) % 128 == c && (w / 8) % 8 == d && w % 8 == j
  {
    var x := 7 * 8192 + c * 64 + d * 8 + j;
    DivModUnique(x, WordCount, 0, x);
    DivModUnique(x, 8192, 7, c * 64 + d * 8 + j);
    DivModUnique(x, 64, 896 + c, d * 8 + j);
    DivModUnique(896 + c, 128, 7, c);
    DivModUnique(x, 8, 7168 + c * 8 + d, j);
    DivModUnique(7168 + c * 8 + d, 8, 896 + c, d);
  }

  /** Conversely, every word whose top three bits are ones is the C-word of its fields. */
  lemma CWordOfFields(w: Word)
    requires w / 8192 == 7
    ensures CWord((w / 64) % 128, (w / 8) % 8, w % 8) == w
  {
    var c, d, j := (w / 64) % 128, (w / 8) % 8, w % 8;
    assert w / 64 == 896 + c;
    assert w / 8 == (w / 64) * 8 + d;
    assert w == (w / 8) * 8 + j;
  }

  /** The codes of known mnemonics are in range, so the fields of their word come back. */
  lemma KnownFieldsInRange(comp: string, dest: string, jump: string)
    requires IsComp(comp) && dest in DestTable && jump in JumpTable
    ensures 0 <= CompCode(comp) < 128 && DestCode(dest) < 8 && JumpCode(jump) < 8
    ensures var w := CWord(CompCode(comp), DestCode(dest), JumpCode(jump));
      && w / 8192 == 7 && (w / 64) % 128 == CompCode(comp)
      && (w / 8) % 8 == DestCode(dest) && w % 8 == JumpCode(jump)
  {
    CWordFields(CompCode(comp), DestCode(dest), JumpCode(jump));
  }

  // ---------------------------------------------------------------------
  // Printing a word
  // ---------------------------------------------------------------------

  /** The last `width` binary digits of n, the most significant first. */
  function Bin(n: nat, width: nat): (s: string)
    ensures |s| == width
  {
    if width == 0 then "" else Bin(n / 2, width - 1) + [if n % 2 == 1 then '1' else '0']
  }

  predicate IsBinary(s: string) {
    forall k :: 0 <= k < |s| ==> s[k] == '0' || s[k] == '1'
  }

  /** The number a string of binary digits stands for, the most significant first. */
  function BinValue(s: string): nat {
    if s == [] then 0
    else 2 * BinValue(s[..|s| - 1]) + (if s[|s| - 1] == '1' then 1 else 0)
  }

  /** What `outfile << bin` prints for `std::bitset<16> bin(w)`. */
  function WordText(w: Word): string {
    Bin(w, 16)
  }

  /** Halving n and then dividing by p divides by 2p, and the remainders fit together. */
  lemma HalfSplit(n: nat, p: nat)
    requires p >= 1
    ensures (n / 2) / p == n / (2 * p)
    ensures 2 * ((n / 2) % p) + n % 2 == n % (2 * p)
  {
    var q, b := n / 2, n % 2;
    var k, r := q / p, q % p;
    assert q == p * k + r;
    assert n == (2 * p) * k + (2 * r + b);
    DivModUnique(n, 2 * p, k, 2 * r + b);
  }

  /** n = m k + r with 0 <= r < m fixes the quotient and the remainder. */
  lemma DivModUnique(n: int, m: int, k: int, r: int)
    requires m >= 1 && n == m * k + r && 0 <= r < m
    ensures n / m == k && n % m == r
  {
    var k', r' := n / m, n % m;
    assert n == m * k' + r';
    assert m * k - m * k' == r' - r;
    if k > k' {
      assert m * (k - k') == m * k - m * k';
      MulAtLeast(m, k - k');
    } else if k < k' {
      assert m * (k' - k) == m * k' - m * k;
      MulAtLeast(m, k' - k);
    }
  }

  lemma MulAtLeast(m: int, t: int)
    requires m >= 1 && t >= 1
    ensures m * t >= m
  {
    if t > 1 {
      MulAtLeast(m, t - 1);
      assert m * t == m * (t - 1) + m;
    }
  }

  /** The printed digits stand for n reduced to `width` bits. */
  lemma {:induction false} BinValueOfBin(n: nat, width: nat)
    ensures IsBinary(Bin(n, width))
    ensures BinValue(Bin(n, width)) == n % Pow2(width)
  {
    if width > 0 {
      var s := Bin(n, width);
      assert s[..|s| - 1] == Bin(n / 2, width - 1);
      BinValueOfBin(n / 2, width - 1);
      HalfSplit(n, Pow2(width - 1));
    }
  }

  /** Printing the value of a string of binary digits at its own width gives it back. */
  lemma {:induction false} BinOfBinValue(s: string)
    requires IsBinary(s)
    ensures Bin(BinValue(s), |s|) == s
  {
    if s != [] {
      var init := s[..|s| - 1];
      assert IsBinary(init) by {
        forall k | 0 <= k < |init|
          ensures init[k] == '0' || init[k] == '1'
        {
          assert init[k] == s[k];
        }
      }
      BinOfBinValue(init);
      assert s == init + [s[|s| - 1]];
    }
  }

  /** Every word prints as sixteen binary digits, and reading them back gives the word. */
  lemma WordTextRoundTrip(w: Word)
    ensures |WordText(w)| == 16 && IsBinary(WordText(w))
    ensures BinValue(WordText(w)) == w
  {
    BinValueOfBin(w, 16);
    Pow2Word();
    DivModUnique(w, Pow2(16), 0, w);
  }

  /** Distinct words print differently. */
  lemma WordTextInjective(v: Word, w: Word)
    ensures WordText(v) == WordText(w) <==> v == w
  {
    WordTextRoundTrip(v);
    WordTextRoundTrip(w);
  }

  /** n shifted right by b bits. */
  function Shr(n: nat, b: nat): (r: nat) {
    if b == 0 then n else Shr(n / 2, b - 1)
  }

  /** Shifting right by b bits divides by 2 to the b. */
  lemma {:induction false} ShrDivides(n: nat, b: nat)
    ensures Shr(n, b) == n / Pow2(b)
  {
    if b > 0 {
      ShrDivides(n / 2, b - 1);
      HalfSplit(n, Pow2(b - 1));
    }
  }

  /** The high `a` digits of a longer print are the print of the value shifted right by `b`. */
  lemma {:induction false} BinSplit(n: nat, a: nat, b: nat)
    ensures Bin(n, a + b) == Bin(Shr(n, b), a) + Bin(n, b)
  {
    if b > 0 {
      BinSplit(n / 2, a, b - 1);
      assert Bin(n, a + b) == Bin(n / 2, a + (b - 1)) + [if n % 2 == 1 then '1' else '0'];
    }
  }

  /** A C-word with fields in range prints with the leading digits "111". */
  lemma CWordText(c: int, d: int, j: int)
    requires 0 <= c < 128 && 0 <= d < 8 && 0 <= j < 8
    ensures WordText(CWord(c, d, j))[..3] == "111"
  {
    var w := CWord(c, d, j);
    CWordFields(c, d, j);
    assert Pow2(13) == 8192;
    ShrDivides(w, 13);
    BinSplit(w, 3, 13);
    assert Bin(7, 3) == "111";
  }

  /** An address below 32768 prints with a leading '0', as an A-instruction. */
  lemma AWordText(a: int)
    requires 0 <= a < 0x8000
    ensures WordText(W(a))[0] == '0'
  {
    assert Pow2(15) == 0x8000;
    ShrDivides(a, 15);
    BinSplit(a, 1, 15);
    assert Bin(0, 1) == "0";
  }
}
