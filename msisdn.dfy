/**
 * `valid_msisdn`: the phone-number pattern
 * `^(08[1-9][0-9]{7,11}|628[1-9][0-9]{7,11}|\+628[1-9][0-9]{7,11})$` under `re.match`,
 * written out as a predicate.
 */
module Msisdn {
  import opened Text

  /** The three accepted leads, in the order the pattern lists them. */
  const Leads: seq<string> := ["08", "628", "+628"]

  /** One alternative of the pattern: lead `p`, a digit 1-9, then 7 to 11 digits, then the end. */
  predicate Alternative(s: string, p: string) {
    StartsWith(s, p) && |p| + 8 <= |s| <= |p| + 12
    && '1' <= s[|p|] <= '9' && AllDigits(s[|p| + 1..])
  }

  /** The alternation matched exactly, without the end-of-line leniency of `$`. */
  predicate WellFormed(s: string) {
    Alternative(s, "08") || Alternative(s, "628") || Alternative(s, "+628")
  }

  /**
   * `valid_msisdn(s)`. Python's `$` also matches just before a final newline, so one
   * trailing `"\n"` is tolerated; `None` reaches the pattern as `""`, which no alternative matches.
   */
  predicate ValidMsisdn(s: string) {
    WellFormed(s) || (s != [] && s[|s| - 1] == '\n' && WellFormed(s[..|s| - 1]))
  }

  /** Every lead, a digit 1-9 and 7 to 11 further digits make a valid number. */
  lemma Compose(p: string, d: char, ds: string)
    requires p in Leads
    requires '1' <= d <= '9' && AllDigits(ds) && 7 <= |ds| <= 11
    ensures ValidMsisdn(p + [d] + ds) && WellFormed(p + [d] + ds)
  {
    var s := p + [d] + ds;
    assert s[..|p|] == p;
    assert s[|p|] == d;
    assert s[|p| + 1..] == ds;
  }

  lemma SplitAlternative(t: string, p: string)
    requires Alternative(t, p)
    ensures '1' <= t[|p|] <= '9' && AllDigits(t[|p| + 1..]) && 7 <= |t[|p| + 1..]| <= 11
    ensures t == p + [t[|p|]] + t[|p| + 1..]
  {
    assert t == t[..|p|] + [t[|p|]] + t[|p| + 1..];
  }

  /** Every well-formed number is a lead, a digit 1-9 and 7 to 11 digits. */
  lemma DecomposeWellFormed(t: string) returns (p: string, d: char, ds: string)
    requires WellFormed(t)
    ensures p in Leads
    ensures '1' <= d <= '9' && AllDigits(ds) && 7 <= |ds| <= 11
    ensures t == p + [d] + ds
  {
    p := if Alternative(t, "08") then "08" else if Alternative(t, "628") then "628" else "+628";
    SplitAlternative(t, p);
    d := t[|p|];
    ds := t[|p| + 1..];
  }

  /** Every valid number is a lead, a digit 1-9 and 7 to 11 digits, with at most a final newline. */
  lemma Decompose(s: string) returns (p: string, d: char, ds: string, newline: bool)
    requires ValidMsisdn(s)
    ensures p in Leads
    ensures '1' <= d <= '9' && AllDigits(ds) && 7 <= |ds| <= 11
    ensures s == p + [d] + ds + (if newline then "\n" else "")
    ensures newline <==> !WellFormed(s)
  {
    newline := !WellFormed(s);
    if newline {
      var t := s[..|s| - 1];
      p, d, ds := DecomposeWellFormed(t);
      assert s == t + "\n";
    } else {
      p, d, ds := DecomposeWellFormed(s);
      assert s + "" == s;
    }
  }

  /** The total length fixes the lead's range: 10-14 for `08`, 11-15 for `628`, 12-16 for `+628`. */
  lemma LengthBounds(s: string)
    requires WellFormed(s)
    ensures s[0] == '0' ==> 10 <= |s| <= 14
    ensures s[0] == '6' ==> 11 <= |s| <= 15
    ensures s[0] == '+' ==> 12 <= |s| <= 16
    ensures s[0] in {'0', '6', '+'}
  {
    assert Alternative(s, "08") ==> s[0] == "08"[0];
    assert Alternative(s, "628") ==> s[0] == "628"[0];
    assert Alternative(s, "+628") ==> s[0] == "+628"[0];
  }

  /** No string matches two alternatives: the first character already tells them apart. */
  lemma AlternativesExclusive(s: string, p: string, q: string)
    requires p in Leads && q in Leads
    requires Alternative(s, p) && Alternative(s, q)
    ensures p == q
  {
    assert s[0] == p[0] && s[0] == q[0];
  }

  /** A token with no trailing newline (a stripped or blank-split token) is valid iff well-formed. */
  lemma ValidWithoutNewline(s: string)
    requires s == [] || s[|s| - 1] != '\n'
    ensures ValidMsisdn(s) <==> WellFormed(s)
  {
  }

  /** A stripped configuration entry or a `split()` token has no trailing newline. */
  lemma StrippedHasNoNewline(s: string)
    requires NoEdgeSpace(s) || NoSpace(s)
    ensures s == [] || s[|s| - 1] != '\n'
  {
    assert IsSpace('\n');
  }

  /** A well-formed number holds no whitespace and no comma, so it survives list parsing and `split()`. */
  lemma WellFormedIsToken(s: string)
    requires WellFormed(s)
    ensures s != [] && NoSpace(s) && NoEdgeSpace(s) && ',' !in s
  {
    var p := if Alternative(s, "08") then "08" else if Alternative(s, "628") then "628" else "+628";
    AsciiSpaces();
    assert s == s[..|p|] + s[|p|..];
    forall i | 0 <= i < |s|
      ensures !IsSpace(s[i]) && s[i] != ','
    {
      if i < |p| {
        assert s[i] == p[i];
      } else if i > |p| {
        assert s[i] == s[|p| + 1..][i - |p| - 1];
      }
    }
  }

  /** One valid number for each lead. */
  lemma ValidExamples()
    ensures ValidMsisdn("081234567890")
    ensures ValidMsisdn("6281234567890")
    ensures ValidMsisdn("+6281234567890")
  {
    assert Alternative("081234567890", "08");
    assert Alternative("6281234567890", "628");
    assert Alternative("+6281234567890", "+628");
  }

  /** Python's `$` lets one final newline through. */
  lemma NewlineExample()
    ensures ValidMsisdn("081234567890\n")
  {
    Compose("08", '1', "234567890");
    assert "08" + ['1'] + "234567890" == "081234567890";
    assert "081234567890\n"[..12] == "081234567890";
  }

  /** Wrong lead, too short (seven digits in all), empty. */
  lemma InvalidExamples()
    ensures !ValidMsisdn("12345")
    ensures !ValidMsisdn("0712345678")
    ensures !ValidMsisdn("")
    ensures !ValidMsisdn("0812345")
  {
    assert "0712345678"[1] == '7';
    assert !Alternative("12345", "08") && !Alternative("12345", "628");
  }
}
