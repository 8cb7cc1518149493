/**
 * The string built-ins of Python that the bot relies on, on `seq<char>`:
 * `str.isspace`, `str.strip()`, `str.split(",")`, `str.split()`, `"x".join`,
 * `str.startswith`, `str.lower()` (ASCII letters and KELVIN SIGN) and `str(int)`.
 */
module Text {

  /** The code points for which Python's `str.isspace()` holds, as inclusive ranges. */
  const SpaceRanges: seq<(int, int)> :=
    [(0x09, 0x0D), (0x1C, 0x20), (0x85, 0x85), (0xA0, 0xA0), (0x1680, 0x1680),
     (0x2000, 0x200A), (0x2028, 0x2029), (0x202F, 0x202F), (0x205F, 0x205F), (0x3000, 0x3000)]

  /** `n` lies in one of `ranges`. */
  predicate InRanges(n: int, ranges: seq<(int, int)>) {
    ranges != [] && ((ranges[0].0 <= n <= ranges[0].1) || InRanges(n, ranges[1..]))
  }

  /** Python's `str.isspace()` on one character. */
  predicate IsSpace(c: char) {
    InRanges(c as int, SpaceRanges)
  }

  lemma {:induction false} BelowRanges(n: int, ranges: seq<(int, int)>)
    requires forall i :: 0 <= i < |ranges| ==> n < ranges[i].0
    ensures !InRanges(n, ranges)
  {
    if ranges != [] {
      BelowRanges(n, ranges[1..]);
    }
  }

  /** Below code point 0x80, the whitespace is tab to carriage return and the four separators to the blank. */
  lemma AsciiSpaces()
    ensures forall c: char :: c as int < 0x80 ==> (IsSpace(c) <==> ('\U{9}' <= c <= '\U{D}') || ('\U{1C}' <= c <= '\U{20}'))
  {
    forall c: char | c as int < 0x80
      ensures IsSpace(c) <==> ('\U{9}' <= c <= '\U{D}') || ('\U{1C}' <= c <= '\U{20}')
    {
      var n := c as int;
      BelowRanges(n, SpaceRanges[2..]);
      assert SpaceRanges[1..][1..] == SpaceRanges[2..];
      assert InRanges(n, SpaceRanges[1..]) <==> 0x1C <= n <= 0x20 || InRanges(n, SpaceRanges[2..]);
      assert IsSpace(c) <==> 0x09 <= n <= 0x0D || InRanges(n, SpaceRanges[1..]);
    }
  }

  predicate IsDigit(c: char) {
    '0' <= c <= '9'
  }

  predicate AllDigits(s: string) {
    forall i :: 0 <= i < |s| ==> IsDigit(s[i])
  }

  predicate NoSpace(s: string) {
    forall i :: 0 <= i < |s| ==> !IsSpace(s[i])
  }

  /** Neither the first nor the last character is whitespace: what `strip()` leaves. */
  predicate NoEdgeSpace(s: string) {
    s == [] || (!IsSpace(s[0]) && !IsSpace(s[|s| - 1]))
  }

  /** `x` occurs in `s` starting at position `i`. */
  predicate OccursAt(s: string, x: string, i: int) {
    0 <= i <= |s| - |x| && s[i..i + |x|] == x
  }

  /** `x in s` for strings: `x` occurs in `s` as a contiguous piece. */
  predicate Contains(s: string, x: string) {
    exists i | 0 <= i <= |s| - |x| :: OccursAt(s, x, i)
  }

  /** A piece placed between two others occurs where it was placed. */
  lemma OccursBetween(p: string, a: string, x: string, b: string, rest: string)
    ensures OccursAt(p + (a + x + b) + rest, x, |p| + |a|)
  {
    var t := p + (a + x + b) + rest;
    assert t == (p + a) + x + (b + rest);
    assert t[|p + a|..|p + a| + |x|] == x;
  }

  /** An occurrence survives putting text in front. */
  lemma OccursShift(p: string, t: string, x: string, j: int)
    requires OccursAt(t, x, j)
    ensures OccursAt(p + t, x, |p| + j)
  {
    assert (p + t)[|p| + j..|p| + j + |x|] == t[j..j + |x|];
  }

  /** An occurrence inside an occurrence is an occurrence. */
  lemma OccursWithin(z: string, y: string, x: string, i: int, j: int)
    requires OccursAt(z, y, i) && OccursAt(y, x, j)
    ensures OccursAt(z, x, i + j)
  {
    forall k | 0 <= k < |x|
      ensures z[i + j + k] == x[k]
    {
      assert x[k] == y[j..j + |x|][k] == y[j + k];
      assert y[j + k] == z[i..i + |y|][j + k];
    }
    assert z[i + j..i + j + |x|] == x;
  }

  /** `s.startswith(p)`. */
  predicate StartsWith(s: string, p: string) {
    |p| <= |s| && s[..|p|] == p
  }

  /** `s.lstrip()`: what is left once the leading whitespace is dropped. */
  function TrimLeft(s: string): (r: string)
    ensures |r| <= |s|
    ensures r != [] ==> !IsSpace(r[0])
  {
    if s != [] && IsSpace(s[0]) then TrimLeft(s[1..]) else s
  }

  /** `s.rstrip()`: what is left once the trailing whitespace is dropped. */
  function TrimRight(s: string): (r: string)
    ensures |r| <= |s|
    ensures r != [] ==> !IsSpace(r[|r| - 1])
  {
    if s != [] && IsSpace(s[|s| - 1]) then TrimRight(s[..|s| - 1]) else s
  }

  /** `lstrip()` keeps the end of `s` and drops only whitespace. */
  lemma {:induction false} TrimLeftSuffix(s: string)
    ensures forall j :: 0 <= j < |TrimLeft(s)| ==> TrimLeft(s)[j] == s[|s| - |TrimLeft(s)| + j]
    ensures forall i :: 0 <= i < |s| - |TrimLeft(s)| ==> IsSpace(s[i])
  {
    if s != [] && IsSpace(s[0]) {
      TrimLeftSuffix(s[1..]);
      forall i | 1 <= i < |s| - |TrimLeft(s)|
        ensures IsSpace(s[i])
      {
        assert s[i] == s[1..][i - 1];
      }
    }
  }

  /** `rstrip()` keeps the start of `s` and drops only whitespace. */
  lemma {:induction false} TrimRightPrefix(s: string)
    ensures forall j :: 0 <= j < |TrimRight(s)| ==> TrimRight(s)[j] == s[j]
    ensures forall i :: |TrimRight(s)| <= i < |s| ==> IsSpace(s[i])
  {
    if s != [] && IsSpace(s[|s| - 1]) {
      TrimRightPrefix(s[..|s| - 1]);
      forall i | |TrimRight(s)| <= i < |s| - 1
        ensures IsSpace(s[i])
      {
        assert s[i] == s[..|s| - 1][i];
      }
    }
  }

  /** Neither trim changes a string without whitespace at its edges. */
  lemma EdgeFreeUntrimmed(s: string)
    ensures NoEdgeSpace(s) ==> TrimLeft(s) == s && TrimRight(s) == s
  {
  }

  /** `s.strip()`. */
  function Strip(s: string): (r: string)
    ensures |r| <= |s|
    ensures NoEdgeSpace(r)
    ensures NoEdgeSpace(s) ==> r == s
  {
    EdgeFreeUntrimmed(s);
    var t := TrimLeft(s);
    var r := TrimRight(t);
    TrimRightPrefix(t);
    r
  }

  /** What `strip()` removes is whitespace only: `s` is `r` with blanks on either side. */
  lemma StripRemovesOnlySpace(s: string) returns (k: nat)
    ensures k + |Strip(s)| <= |s|
    ensures forall j :: 0 <= j < |Strip(s)| ==> Strip(s)[j] == s[k + j]
    ensures forall i :: 0 <= i < k ==> IsSpace(s[i])
    ensures forall i :: k + |Strip(s)| <= i < |s| ==> IsSpace(s[i])
  {
    var t := TrimLeft(s);
    var r := TrimRight(t);
    assert Strip(s) == r;
    TrimLeftSuffix(s);
    TrimRightPrefix(t);
    k := |s| - |t|;
    forall j | 0 <= j < |t|
      ensures t[j] == s[k + j]
    {
    }
    forall j | 0 <= j < |r|
      ensures r[j] == s[k + j]
    {
      assert r[j] == t[j];
    }
    forall i | k + |r| <= i < |s|
      ensures IsSpace(s[i])
    {
      var j := i - k;
      assert IsSpace(t[j]);
    }
  }

  /** `s.split(sep)` for a one-character separator: never empty, no piece holds `sep`. */
  function SplitOn(s: string, sep: char): (r: seq<string>)
    ensures |r| >= 1
    ensures forall i :: 0 <= i < |r| ==> sep !in r[i]
  {
    if s == [] then [""]
    else
      var rest := SplitOn(s[1..], sep);
      if s[0] == sep then [""] + rest else [[s[0]] + rest[0]] + rest[1..]
  }

  /** `sep.join(xs)` for a one-character separator. */
  function Join(xs: seq<string>, sep: char): string {
    if |xs| == 0 then "" else if |xs| == 1 then xs[0] else xs[0] + [sep] + Join(xs[1..], sep)
  }

  lemma JoinCons(x: string, xs: seq<string>, sep: char)
    requires xs != []
    ensures Join([x] + xs, sep) == x + [sep] + Join(xs, sep)
  {
    assert ([x] + xs)[1..] == xs;
  }

  /** Each piece occurs in the join. */
  lemma {:induction false} JoinHasPiece(xs: seq<string>, sep: char, k: nat) returns (i: int)
    requires k < |xs|
    ensures OccursAt(Join(xs, sep), xs[k], i)
  {
    if |xs| == 1 {
      i := 0;
      assert Join(xs, sep)[..|xs[0]|] == xs[0];
    } else if k == 0 {
      i := 0;
      assert Join(xs, sep) == xs[0] + ([sep] + Join(xs[1..], sep));
      assert Join(xs, sep)[..|xs[0]|] == xs[0];
    } else {
      var j := JoinHasPiece(xs[1..], sep, k - 1);
      OccursShift(xs[0] + [sep], Join(xs[1..], sep), xs[k], j);
      i := |xs[0]| + 1 + j;
    }
  }

  lemma {:induction false} SplitOnPiece(a: string, sep: char)
    requires sep !in a
    ensures SplitOn(a, sep) == [a]
  {
    if a != [] {
      SplitOnPiece(a[1..], sep);
      assert [a[0]] + a[1..] == a;
    }
  }

  lemma {:induction false} SplitOnCons(a: string, b: string, sep: char)
    requires sep !in a
    ensures SplitOn(a + [sep] + b, sep) == [a] + SplitOn(b, sep)
  {
    if a == [] {
      assert ([sep] + b)[1..] == b;
    } else {
      SplitOnCons(a[1..], b, sep);
      assert (a + [sep] + b)[1..] == a[1..] + [sep] + b;
      assert [a[0]] + a[1..] == a;
    }
  }

  /** Splitting a join of separator-free pieces gives the pieces back. */
  lemma {:induction false} SplitOnJoin(xs: seq<string>, sep: char)
    requires |xs| >= 1
    requires forall i :: 0 <= i < |xs| ==> sep !in xs[i]
    ensures SplitOn(Join(xs, sep), sep) == xs
  {
    if |xs| == 1 {
      SplitOnPiece(xs[0], sep);
    } else {
      SplitOnJoin(xs[1..], sep);
      SplitOnCons(xs[0], Join(xs[1..], sep), sep);
    }
  }

  /** The longest prefix of `s` without whitespace. */
  function TakeWord(s: string): (w: string)
    ensures |w| <= |s| && w == s[..|w|]
    ensures NoSpace(w)
    ensures |w| < |s| ==> IsSpace(s[|w|])
  {
    if s != [] && !IsSpace(s[0]) then [s[0]] + TakeWord(s[1..]) else ""
  }

  /** `s.split()`: the maximal runs of non-whitespace characters, in order. */
  function Words(s: string): (ws: seq<string>)
    ensures forall i :: 0 <= i < |ws| ==> ws[i] != "" && NoSpace(ws[i])
    decreases |s|
  {
    var t := TrimLeft(s);
    if t == [] then [] else var w := TakeWord(t); [w] + Words(t[|w|..])
  }

  lemma {:induction false} TakeWordPiece(w: string, rest: string)
    requires NoSpace(w)
    requires rest == [] || IsSpace(rest[0])
    ensures TakeWord(w + rest) == w
  {
    if w != [] {
      TakeWordPiece(w[1..], rest);
      assert (w + rest)[1..] == w[1..] + rest;
      assert [w[0]] + w[1..] == w;
    } else {
      assert w + rest == rest;
    }
  }

  lemma WordsAfterSpace(x: string)
    ensures Words([' '] + x) == Words(x)
  {
    assert ([' '] + x)[1..] == x;
  }

  lemma WordsOfWord(w: string, rest: string)
    requires w != [] && NoSpace(w)
    requires rest == [] || IsSpace(rest[0])
    ensures Words(w + rest) == [w] + Words(rest)
  {
    var s := w + rest;
    assert TrimLeft(s) == s;
    TakeWordPiece(w, rest);
    assert s[|w|..] == rest;
  }

  /** Splitting a single-space join of non-empty blank-free words gives the words back. */
  lemma {:induction false} WordsJoin(ws: seq<string>)
    requires forall i :: 0 <= i < |ws| ==> ws[i] != "" && NoSpace(ws[i])
    ensures Words(Join(ws, ' ')) == ws
  {
    if |ws| == 1 {
      WordsOfWord(ws[0], "");
      assert ws[0] + "" == ws[0];
    } else if |ws| > 1 {
      var j := Join(ws[1..], ' ');
      assert Join(ws, ' ') == ws[0] + ([' '] + j);
      WordsThenSpace(ws[0], j);
      WordsJoin(ws[1..]);
      assert ws == [ws[0]] + ws[1..];
    }
  }

  /** A word, one blank, then the rest: the word comes first, then the words of the rest. */
  lemma WordsThenSpace(w: string, rest: string)
    requires w != [] && NoSpace(w)
    ensures Words(w + ([' '] + rest)) == [w] + Words(rest)
  {
    WordsOfWord(w, [' '] + rest);
    WordsAfterSpace(rest);
  }

  /**
   * Which of the 26 letters `c` is, in either case (KELVIN SIGN is `k`), or -1 when it is
   * none of them.
   */
  function LetterIndex(c: char): int {
    if 'a' <= c <= 'z' then c as int - 'a' as int
    else if 'A' <= c <= 'Z' then c as int - 'A' as int
    else if c == '\U{212A}' then 'k' as int - 'a' as int
    else -1
  }

  /**
   * `c.lower()` for the characters whose lower case is an ASCII letter: the ASCII capitals and
   * U+212A KELVIN SIGN, which lowers to `k`. Every other character is kept as it is.
   */
  function LowerChar(c: char): (l: char)
    ensures !('A' <= l <= 'Z')
    ensures 'a' <= l <= 'z' <==> ('a' <= c <= 'z') || ('A' <= c <= 'Z') || c == '\U{212A}'
    ensures ('A' <= c <= 'Z') || c == '\U{212A}' || l == c
    ensures c == '\U{212A}' ==> l == 'k'
    ensures LetterIndex(l) == LetterIndex(c)
  {
    if 'A' <= c <= 'Z' then (c as int - 'A' as int + 'a' as int) as char
    else if c == '\U{212A}' then 'k'
    else c
  }

  /** Two characters that are the same letter lower to the same character. */
  lemma LowerCharSameLetter(c: char, d: char)
    requires LetterIndex(c) >= 0 && LetterIndex(c) == LetterIndex(d)
    ensures LowerChar(c) == LowerChar(d)
  {
    var l, m := LowerChar(c), LowerChar(d);
    assert 'a' <= l <= 'z' && 'a' <= m <= 'z';
    assert l as int - 'a' as int == m as int - 'a' as int;
  }

  /** `s` and `t` agree position by position up to the case of letters. */
  predicate SameIgnoringCase(s: string, t: string) {
    |s| == |t|
    && forall i :: 0 <= i < |s| ==> s[i] == t[i] || (LetterIndex(s[i]) >= 0 && LetterIndex(s[i]) == LetterIndex(t[i]))
  }

  /** `s.lower()`, letter by letter. */
  function Lower(s: string): (r: string)
    ensures |r| == |s|
    ensures forall i :: 0 <= i < |s| ==> r[i] == LowerChar(s[i])
  {
    if s == [] then [] else [LowerChar(s[0])] + Lower(s[1..])
  }
  /** Texts that differ only in the case of their letters lower to the same text. */
  lemma LowerIgnoresCase(s: string, t: string)
    requires SameIgnoringCase(s, t)
    ensures Lower(s) == Lower(t)
  {
    forall i | 0 <= i < |s|
      ensures Lower(s)[i] == Lower(t)[i]
    {
      if s[i] != t[i] {
        LowerCharSameLetter(s[i], t[i]);
      }
    }
  }


  function DigitChar(d: nat): (c: char)
    requires d < 10
    ensures IsDigit(c) && c as int - '0' as int == d
  {
    ('0' as int + d) as char
  }

  /** `str(n)` for a non-negative int. */
  function NatToDecimal(n: nat): (r: string)
    ensures |r| >= 1 && AllDigits(r)
  {
    if n < 10 then [DigitChar(n)] else NatToDecimal(n / 10) + [DigitChar(n % 10)]
  }

  /** `str(n)`: a minus sign for negative numbers, then the decimal digits. */
  function IntToDecimal(n: int): (r: string)
    ensures |r| >= 1
    ensures n >= 0 ==> AllDigits(r)
    ensures n < 0 ==> r[0] == '-' && AllDigits(r[1..])
  {
    if n < 0 then "-" + NatToDecimal(-n) else NatToDecimal(n)
  }

  /** The number a string of decimal digits denotes. */
  function DigitsValue(s: string): nat
    requires AllDigits(s)
  {
    if s == [] then 0 else DigitsValue(s[..|s| - 1]) * 10 + (s[|s| - 1] as int - '0' as int)
  }

  lemma {:induction false} NatToDecimalValue(n: nat)
    ensures DigitsValue(NatToDecimal(n)) == n
  {
    if n >= 10 {
      NatToDecimalValue(n / 10);
      var s := NatToDecimal(n);
      assert s[..|s| - 1] == NatToDecimal(n / 10);
    }
  }

  /** `str` on ints is injective: two different ids never print alike. */
  lemma IntToDecimalInjective(a: int, b: int)
    requires IntToDecimal(a) == IntToDecimal(b)
    ensures a == b
  {
    if a >= 0 && b >= 0 {
      NatToDecimalValue(a);
      NatToDecimalValue(b);
    } else if a < 0 && b < 0 {
      assert NatToDecimal(-a) == IntToDecimal(a)[1..];
      NatToDecimalValue(-a);
      NatToDecimalValue(-b);
    }
  }
}
