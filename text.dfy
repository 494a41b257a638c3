/**
 * The string primitives the search relies on: `trim`, `toLowerCase`,
 * `includes` and `String(n)` for an integer `n`, over `seq<char>`.
 */
module Text {

  /**
   * The characters `String.prototype.trim` strips: ECMAScript's WhiteSpace
   * (TAB, VT, FF, ZWNBSP and every Unicode "Zs" space separator) and
   * LineTerminator (LF, CR, LS, PS).
   */
  predicate IsWhitespace(c: char) {
    c == '\t' || c == '\n' || c == '\U{000B}' || c == '\U{000C}' || c == '\r'
    || c == ' ' || c == '\U{00A0}' || c == '\U{1680}'
    || ('\U{2000}' <= c <= '\U{200A}')
    || c == '\U{2028}' || c == '\U{2029}' || c == '\U{202F}' || c == '\U{205F}'
    || c == '\U{3000}' || c == '\U{FEFF}'
  }

  predicate AllWhitespace(s: string) {
    forall i :: 0 <= i < |s| ==> IsWhitespace(s[i])
  }

  /** `s.trimStart()`: drops leading whitespace. */
  function TrimStart(s: string): string {
    if s != [] && IsWhitespace(s[0]) then TrimStart(s[1..]) else s
  }

  /** `s.trimEnd()`: drops trailing whitespace. */
  function TrimEnd(s: string): string {
    if s != [] && IsWhitespace(s[|s| - 1]) then TrimEnd(s[..|s| - 1]) else s
  }

  /** TrimStart keeps a suffix of `s` that does not start with whitespace, and everything it drops is whitespace. */
  lemma {:induction false} TrimStartSpec(s: string)
    ensures |TrimStart(s)| <= |s| && TrimStart(s) == s[|s| - |TrimStart(s)|..]
    ensures AllWhitespace(s[..|s| - |TrimStart(s)|])
    ensures TrimStart(s) == [] || !IsWhitespace(TrimStart(s)[0])
  {
    if s != [] && IsWhitespace(s[0]) {
      var t := s[1..];
      TrimStartSpec(t);
      assert TrimStart(s) == TrimStart(t);
      var k := |s| - |TrimStart(s)|;
      assert t[..k - 1] == s[1..k];
      forall i | 0 <= i < k
        ensures IsWhitespace(s[..k][i])
      {
        if i > 0 {
          assert s[..k][i] == t[..k - 1][i - 1];
        } else {
          assert s[..k][i] == s[0];
        }
      }
    }
  }

  /** TrimEnd keeps a prefix of `s` that does not end with whitespace, and everything it drops is whitespace. */
  lemma {:induction false} TrimEndSpec(s: string)
    ensures |TrimEnd(s)| <= |s| && TrimEnd(s) == s[..|TrimEnd(s)|]
    ensures AllWhitespace(s[|TrimEnd(s)|..])
    ensures TrimEnd(s) == [] || !IsWhitespace(TrimEnd(s)[|TrimEnd(s)| - 1])
  {
    if s != [] && IsWhitespace(s[|s| - 1]) {
      var t := s[..|s| - 1];
      TrimEndSpec(t);
      assert TrimEnd(s) == TrimEnd(t);
      var k := |TrimEnd(s)|;
      assert t[k..] == s[k..|s| - 1];
      forall j | 0 <= j < |s| - k
        ensures IsWhitespace(s[k..][j])
      {
        if j < |s| - 1 - k {
          assert s[k..][j] == t[k..][j];
        } else {
          assert s[k..][j] == s[|s| - 1];
        }
      }
    }
  }

  /** `s.trim()` */
  function Trim(s: string): string {
    TrimEnd(TrimStart(s))
  }

  /**
   * Trim splits its input into whitespace, the trimmed text and whitespace,
   * and the trimmed text neither starts nor ends with whitespace.
   */
  lemma {:induction false} TrimSplits(s: string) returns (before: string, after: string)
    ensures s == before + Trim(s) + after
    ensures AllWhitespace(before) && AllWhitespace(after)
    ensures Trim(s) == [] || (!IsWhitespace(Trim(s)[0]) && !IsWhitespace(Trim(s)[|Trim(s)| - 1]))
  {
    var t := TrimStart(s);
    var r := TrimEnd(t);
    TrimStartSpec(s);
    TrimEndSpec(t);
    before, after := s[..|s| - |t|], t[|r|..];
    Rejoin(s, before, t, r, after);
  }

  lemma Rejoin(s: string, before: string, t: string, r: string, after: string)
    requires |t| <= |s| && t == s[|s| - |t|..] && before == s[..|s| - |t|]
    requires |r| <= |t| && r == t[..|r|] && after == t[|r|..]
    ensures s == before + r + after
    ensures r != [] ==> r[0] == t[0]
  {
  }

  /** The trimmed text is empty exactly when the whole input is whitespace. */
  lemma TrimEmptyIff(s: string)
    ensures Trim(s) == [] <==> AllWhitespace(s)
  {
    var before, after := TrimSplits(s);
    if Trim(s) == [] {
      assert s == before + after;
    } else {
      assert s[|before|] == Trim(s)[0];
    }
  }

  /** ASCII `toLowerCase` of one character. */
  function LowerChar(c: char): char {
    if 'A' <= c <= 'Z' then (c as int - 'A' as int + 'a' as int) as char else c
  }

  /** `s.toLowerCase()`, restricted to the ASCII letters. */
  function ToLower(s: string): (r: string)
    ensures |r| == |s|
  {
    seq(|s|, i requires 0 <= i < |s| => LowerChar(s[i]))
  }

  const UpperLetters := "ABCDEFGHIJKLMNOPQRSTUVWXYZ"
  const LowerLetters := "abcdefghijklmnopqrstuvwxyz"

  /** The two alphabets run in code-point order from 'A' and from 'a'. */
  lemma Alphabet()
    ensures |UpperLetters| == 26 && |LowerLetters| == 26
    ensures forall k :: 0 <= k < 26 ==> UpperLetters[k] as int == 'A' as int + k && LowerLetters[k] as int == 'a' as int + k
  {
  }

  /**
   * Lower-casing turns each capital into the letter at the same place of the
   * lower-case alphabet, changes no other character, leaves no capital and
   * is idempotent.
   */
  lemma ToLowerSpec(s: string)
    ensures forall i :: 0 <= i < |s| && 'A' <= s[i] <= 'Z' ==> ToLower(s)[i] == LowerLetters[s[i] as int - 'A' as int]
    ensures forall i :: 0 <= i < |s| && !('A' <= s[i] <= 'Z') ==> ToLower(s)[i] == s[i]
    ensures forall i :: 0 <= i < |s| ==> !('A' <= ToLower(s)[i] <= 'Z')
    ensures ToLower(ToLower(s)) == ToLower(s)
  {
    Alphabet();
  }

  /** `c` and `d` are the same character up to ASCII case. */
  predicate CaseVariant(c: char, d: char) {
    c == d
    || exists k :: 0 <= k < 26
         && ((c == UpperLetters[k] && d == LowerLetters[k]) || (c == LowerLetters[k] && d == UpperLetters[k]))
  }

  /** `a` and `b` spell the same text up to ASCII case. */
  predicate SameIgnoringCase(a: string, b: string) {
    |a| == |b| && forall i :: 0 <= i < |a| ==> CaseVariant(a[i], b[i])
  }

  /** Characters that are the same up to case lower-case alike. */
  lemma VariantsLowerAlike(c: char, d: char)
    requires CaseVariant(c, d)
    ensures LowerChar(c) == LowerChar(d)
  {
    if c != d {
      Alphabet();
      var k :| 0 <= k < 26
        && ((c == UpperLetters[k] && d == LowerLetters[k]) || (c == LowerLetters[k] && d == UpperLetters[k]));
      assert LowerChar(UpperLetters[k]) == LowerLetters[k];
    }
  }

  /** Characters that lower-case alike are the same up to case. */
  lemma AlikeAreVariants(c: char, d: char)
    requires LowerChar(c) == LowerChar(d)
    ensures CaseVariant(c, d)
  {
    if c != d {
      Alphabet();
      if 'A' <= c <= 'Z' {
        var k := c as int - 'A' as int;
        assert c == UpperLetters[k] && d == LowerLetters[k];
      } else {
        var k := d as int - 'A' as int;
        assert d == UpperLetters[k] && c == LowerLetters[k];
      }
    }
  }

  /** Two characters lower-case alike exactly when they are the same up to case. */
  lemma LowerCharIff(c: char, d: char)
    ensures LowerChar(c) == LowerChar(d) <==> CaseVariant(c, d)
  {
    if CaseVariant(c, d) {
      VariantsLowerAlike(c, d);
    }
    if LowerChar(c) == LowerChar(d) {
      AlikeAreVariants(c, d);
    }
  }

  /** Two strings lower-case to the same text exactly when they are the same up to ASCII case. */
  lemma ToLowerIgnoresCase(a: string, b: string)
    ensures ToLower(a) == ToLower(b) <==> SameIgnoringCase(a, b)
  {
    if |a| == |b| {
      forall i | 0 <= i < |a| {
        LowerCharIff(a[i], b[i]);
      }
      if ToLower(a) == ToLower(b) {
        assert forall i :: 0 <= i < |a| ==> LowerChar(a[i]) == ToLower(a)[i];
      } else {
        var i :| 0 <= i < |a| && ToLower(a)[i] != ToLower(b)[i];
        assert !CaseVariant(a[i], b[i]);
      }
    }
  }

  /** `q` occurs in `s` starting at position `i`. */
  predicate OccursAt(s: string, q: string, i: int) {
    0 <= i && i + |q| <= |s| && s[i..i + |q|] == q
  }

  /** `s.includes(q)`: `q` is a prefix of `s` or of one of its suffixes. */
  function Contains(s: string, q: string): bool {
    q <= s || (s != [] && Contains(s[1..], q))
  }

  /** Contains(s, q) holds exactly when `q` occurs as a contiguous slice of `s`. */
  lemma {:induction false} ContainsIff(s: string, q: string)
    ensures Contains(s, q) <==> exists i :: OccursAt(s, q, i)
  {
    if q <= s {
      assert OccursAt(s, q, 0);
    } else if s != [] {
      var t := s[1..];
      ContainsIff(t, q);
      assert Contains(s, q) == Contains(t, q);
      forall i | OccursAt(t, q, i)
        ensures OccursAt(s, q, i + 1)
      {
        assert s[i + 1..i + 1 + |q|] == t[i..i + |q|];
      }
      forall i | OccursAt(s, q, i)
        ensures OccursAt(t, q, i - 1)
      {
        assert i != 0;
        assert t[i - 1..i - 1 + |q|] == s[i..i + |q|];
      }
    }
  }

  function DigitChar(d: nat): char
    requires d < 10
  {
    "0123456789"[d]
  }

  predicate IsDigit(c: char) {
    '0' as int <= c as int <= '9' as int
  }

  /** The decimal digits of `n`, most significant first, without leading zeros. */
  function Digits(n: nat): (r: string)
    ensures |r| >= 1
    ensures forall i :: 0 <= i < |r| ==> IsDigit(r[i])
    ensures r[0] == '0' ==> n == 0 && r == "0"
    decreases n
  {
    if n < 10 then [DigitChar(n)] else Digits(n / 10) + [DigitChar(n % 10)]
  }

  /** `String(n)` for an integer-valued number `n`: its digits, after a `-` when negative. */
  function Decimal(n: int): (r: string)
    ensures |r| >= 1
    ensures n >= 0 ==> r == Digits(n)
    ensures n < 0 ==> r == "-" + Digits(-n)
  {
    if n < 0 then "-" + Digits(-n) else Digits(n)
  }

  /** The value of a string of decimal digits. */
  function DigitsValue(s: string): nat
    requires forall i :: 0 <= i < |s| ==> IsDigit(s[i])
  {
    if s == [] then 0
    else
      assert IsDigit(s[|s| - 1]);
      var d: int := s[|s| - 1] as int - '0' as int;
      10 * DigitsValue(s[..|s| - 1]) + d
  }

  /** Reads back the number `String(n)` wrote. */
  function ParseDecimal(s: string): int
    requires s != []
    requires forall i :: (if s[0] == '-' then 1 else 0) <= i < |s| ==> IsDigit(s[i])
  {
    if s[0] == '-' then 0 - DigitsValue(s[1..]) else DigitsValue(s)
  }

  lemma {:induction false} DigitsRoundTrip(n: nat)
    ensures DigitsValue(Digits(n)) == n
    decreases n
  {
    var r := Digits(n);
    if n >= 10 {
      DigitsRoundTrip(n / 10);
      assert r[..|r| - 1] == Digits(n / 10);
    }
  }

  /** `String(n)` is faithful: parsing it back yields `n`, so distinct numbers print differently. */
  lemma {:induction false} DecimalRoundTrip(n: int)
    ensures ParseDecimal(Decimal(n)) == n
  {
    var r := Decimal(n);
    if n < 0 {
      var d := Digits(-n);
      DigitsRoundTrip(-n);
      assert r[0] == '-' && r[1..] == d;
    } else {
      var d := Digits(n);
      DigitsRoundTrip(n);
      assert r == d && IsDigit(d[0]);
    }
  }
}
