/** The two format checks of the lead form, `^[^\s@]+@[^\s@]+\.[^\s@]+$` for
    e-mail and `^\+?[\d\s-()]+$` for phone. Each is given twice: as what the
    regular expression matches (a decomposition of the whole string into the
    pattern's pieces) and as a direct check, with a lemma that they agree. */
module FormPatterns {
  import opened JsString

  /** `[^\s@]`: any character but whitespace and `@`. */
  predicate IsAddressChar(c: char) {
    !IsWhitespace(c) && c != '@'
  }

  /** `[^\s@]+`. */
  predicate IsAddressRun(s: string) {
    |s| > 0 && forall i | 0 <= i < |s| :: IsAddressChar(s[i])
  }

  /** The e-mail regular expression matches `s`: `s` is `A@B.C` with the three
      pieces `A`, `B`, `C` non-empty runs of `[^\s@]`; `at` and `dot` are the
      positions of the literal `@` and `.`. */
  ghost predicate EmailPatternMatches(s: string) {
    exists at, dot | 0 < at && at + 1 < dot < |s| - 1 ::
      && s[at] == '@' && s[dot] == '.'
      && IsAddressRun(s[..at]) && IsAddressRun(s[at + 1..dot]) && IsAddressRun(s[dot + 1..])
  }

  /** The domain after the `@` has a `.` with text on both sides. */
  predicate HasInnerDot(d: string) {
    |d| >= 3 && '.' in d[1..|d| - 1]
  }

  /** Direct check: no whitespace, exactly one `@`, a non-empty part before
      it, and a domain with an inner `.`. */
  predicate IsEmailFormat(s: string) {
    && NoWhitespace(s)
    && Count(s, '@') == 1
    && var at := IndexOf(s, '@');
    && at > 0
    && HasInnerDot(s[at + 1..])
  }

  /** A string with one `@` at `at` has no other `@`. */
  lemma OnlyAt(s: string, at: nat)
    requires at < |s| && s[at] == '@' && Count(s, '@') == 1
    ensures '@' !in s[..at] && '@' !in s[at + 1..]
  {
    assert s == s[..at] + ([s[at]] + s[at + 1..]);
    CountAppend(s[..at], [s[at]] + s[at + 1..], '@');
    CountAppend([s[at]], s[at + 1..], '@');
  }

  /** A match of the pattern at positions `at` and `dot` passes the direct check. */
  lemma MatchIsEmailFormat(s: string, at: nat, dot: nat)
    requires 0 < at && at + 1 < dot < |s| - 1
    requires s[at] == '@' && s[dot] == '.'
    requires IsAddressRun(s[..at]) && IsAddressRun(s[at + 1..dot]) && IsAddressRun(s[dot + 1..])
    ensures IsEmailFormat(s)
  {
    MatchChars(s, at, dot);
    SingleAt(s, at);
    var d := s[at + 1..];
    assert d[1..|d| - 1][dot - at - 2] == '.';
  }

  /** In a match, every character is an address character except the `@`. */
  lemma MatchChars(s: string, at: nat, dot: nat)
    requires 0 < at && at + 1 < dot < |s| - 1
    requires s[at] == '@' && s[dot] == '.'
    requires IsAddressRun(s[..at]) && IsAddressRun(s[at + 1..dot]) && IsAddressRun(s[dot + 1..])
    ensures NoWhitespace(s)
    ensures forall i | 0 <= i < |s| && i != at :: s[i] != '@'
  {
    forall i | 0 <= i < |s| ensures !IsWhitespace(s[i]) && (i != at ==> s[i] != '@') {
      if i < at { assert s[i] == s[..at][i]; }
      else if at < i < dot { assert s[i] == s[at + 1..dot][i - at - 1]; }
      else if dot < i { assert s[i] == s[dot + 1..][i - dot - 1]; }
    }
  }

  /** An `@` at `at` and nowhere else is counted once and found at `at`. */
  lemma SingleAt(s: string, at: nat)
    requires at < |s| && s[at] == '@'
    requires forall i | 0 <= i < |s| && i != at :: s[i] != '@'
    ensures Count(s, '@') == 1 && IndexOf(s, '@') == at
  {
    SliceAround(s, at);
    assert '@' !in s[..at] by {
      forall k | 0 <= k < at ensures s[..at][k] != '@' { assert s[..at][k] == s[k]; }
    }
    assert '@' !in s[at + 1..] by {
      var t := s[at + 1..];
      forall k | 0 <= k < |t| ensures t[k] != '@' { assert t[k] == s[at + 1 + k]; }
    }
    CountAppend(s[..at] + [s[at]], s[at + 1..], '@');
    CountAppend(s[..at], [s[at]], '@');
    assert Count([s[at]], '@') == 1;
  }

  /** A string passing the direct check is matched by the pattern. */
  lemma EmailFormatIsMatch(s: string)
    requires IsEmailFormat(s)
    ensures EmailPatternMatches(s)
  {
    var at := IndexOf(s, '@');
    OnlyAt(s, at);
    var d := s[at + 1..];
    var k :| 0 <= k < |d[1..|d| - 1]| && d[1..|d| - 1][k] == '.';
    var dot := at + 2 + k;
    assert s[dot] == '.';
    forall i | 0 <= i < |s| && i != at ensures IsAddressChar(s[i]) {
      if i < at { assert s[i] == s[..at][i]; } else { assert s[i] == s[at + 1..][i - at - 1]; }
    }
    assert IsAddressRun(s[..at]);
    assert IsAddressRun(s[at + 1..dot]);
    assert IsAddressRun(s[dot + 1..]);
  }

  /** The pattern matches exactly the strings the direct check accepts. */
  lemma EmailFormatIff(s: string)
    ensures EmailPatternMatches(s) <==> IsEmailFormat(s)
  {
    if EmailPatternMatches(s) {
      var at, dot :| 0 < at && at + 1 < dot < |s| - 1
        && s[at] == '@' && s[dot] == '.'
        && IsAddressRun(s[..at]) && IsAddressRun(s[at + 1..dot]) && IsAddressRun(s[dot + 1..]);
      MatchIsEmailFormat(s, at, dot);
    }
    if IsEmailFormat(s) {
      EmailFormatIsMatch(s);
    }
  }

  /** `[\d\s-()]`: an ASCII digit, whitespace, `-`, `(` or `)`. A class
      escape such as `\s` cannot bound a range, so JavaScript's web-compatible
      pattern grammar reads `\s-(` as the three members `\s`, `-` and `(`. */
  predicate IsPhoneChar(c: char) {
    ('0' <= c <= '9') || IsWhitespace(c) || c == '-' || c == '(' || c == ')'
  }

  /** `[\d\s-()]+`. */
  predicate IsPhoneRun(s: string) {
    |s| > 0 && forall i | 0 <= i < |s| :: IsPhoneChar(s[i])
  }

  /** The phone regular expression matches `s`: either a `+` followed by a
      run, or a run alone (the two readings of the optional `\+?`). */
  ghost predicate PhonePatternMatches(s: string) {
    || (|s| > 0 && s[0] == '+' && IsPhoneRun(s[1..]))
    || IsPhoneRun(s)
  }

  /** Direct check: strip one leading `+` if present, then require a run. */
  predicate IsPhoneFormat(s: string) {
    var body := if |s| > 0 && s[0] == '+' then s[1..] else s;
    IsPhoneRun(body)
  }

  /** The pattern matches exactly the strings the direct check accepts. */
  lemma PhoneFormatIff(s: string)
    ensures PhonePatternMatches(s) <==> IsPhoneFormat(s)
  {
    if |s| > 0 && s[0] == '+' {
      assert !IsPhoneChar(s[0]);
    }
  }

  /** Characters outside `+` and the run class are always refused. */
  lemma PhoneRejectsForeign(s: string, i: nat)
    requires i < |s| && !IsPhoneChar(s[i]) && s[i] != '+'
    ensures !IsPhoneFormat(s)
  {
    if |s| > 0 && s[0] == '+' {
      assert s[1..][i - 1] == s[i];
    }
  }
}
