/** The handful of `String.prototype` operations the lead-capture code relies
    on: `trim`, the whitespace class `\s`, `split` on one character,
    `Array.prototype.join`, and a global replace of one character by a
    replacement string without `$` (so that no `$&`, `$'`, `` $` `` or `$$`
    substitution pattern applies). */
module JsString {

  /** JS whitespace: the WhiteSpace and LineTerminator code points. The regex
      class `\s` and `String.prototype.trim` both use exactly this set. */
  predicate IsWhitespace(c: char) {
    || c == '\t' || c == '\n' || c == '\U{000B}' || c == '\U{000C}' || c == '\r'
    || c == ' ' || c == '\U{00A0}' || c == '\U{1680}'
    || ('\U{2000}' <= c <= '\U{200A}')
    || c == '\U{2028}' || c == '\U{2029}' || c == '\U{202F}' || c == '\U{205F}'
    || c == '\U{3000}' || c == '\U{FEFF}'
  }

  predicate AllWhitespace(s: string) {
    forall i | 0 <= i < |s| :: IsWhitespace(s[i])
  }

  predicate NoWhitespace(s: string) {
    forall i | 0 <= i < |s| :: !IsWhitespace(s[i])
  }

  /** `s.trimStart()`. */
  function TrimStart(s: string): (r: string)
    ensures |r| <= |s|
  {
    if |s| > 0 && IsWhitespace(s[0]) then TrimStart(s[1..]) else s
  }

  /** `s.trimEnd()`. */
  function TrimEnd(s: string): (r: string)
    ensures |r| <= |s|
  {
    if |s| > 0 && IsWhitespace(s[|s| - 1]) then TrimEnd(s[..|s| - 1]) else s
  }

  /** `s.trim()`: whitespace removed at both ends. */
  function Trim(s: string): (r: string)
    ensures |r| <= |s|
  {
    TrimEnd(TrimStart(s))
  }

  /** `trimStart` keeps a suffix of `s`, drops only whitespace, and stops at
      the first character that is not whitespace. */
  lemma {:induction false} TrimStartSpec(s: string)
    ensures var r := TrimStart(s);
      && r == s[|s| - |r|..]
      && AllWhitespace(s[..|s| - |r|])
      && (|r| > 0 ==> !IsWhitespace(r[0]))
  {
    if |s| > 0 && IsWhitespace(s[0]) {
      TrimStartSpec(s[1..]);
      var r := TrimStart(s);
      var k := |s| - |r|;
      assert s[1..][..k - 1] == s[1..k];
      assert forall x | 1 <= x < k :: s[x] == s[1..][..k - 1][x - 1];
    }
  }

  /** `trimEnd` keeps a prefix of `s`, drops only whitespace, and stops at
      the last character that is not whitespace. */
  lemma {:induction false} TrimEndSpec(s: string)
    ensures var r := TrimEnd(s);
      && r == s[..|r|]
      && AllWhitespace(s[|r|..])
      && (|r| > 0 ==> !IsWhitespace(r[|r| - 1]))
  {
    if |s| > 0 && IsWhitespace(s[|s| - 1]) {
      var t := s[..|s| - 1];
      TrimEndSpec(t);
      var r := TrimEnd(s);
      assert forall x | |r| <= x < |t| :: s[x] == t[|r|..][x - |r|];
    }
  }

  /** What `trim` keeps is the infix `s[i..j]`; what it drops is whitespace;
      what it keeps neither starts nor ends with whitespace. */
  lemma TrimIsInfix(s: string) returns (i: nat, j: nat)
    ensures i <= j <= |s| && Trim(s) == s[i..j]
    ensures AllWhitespace(s[..i]) && AllWhitespace(s[j..])
    ensures |Trim(s)| > 0 ==> !IsWhitespace(Trim(s)[0]) && !IsWhitespace(Trim(s)[|Trim(s)| - 1])
  {
    var t := TrimStart(s);
    TrimStartSpec(s);
    TrimEndSpec(t);
    var r := TrimEnd(t);
    i := |s| - |t|;
    j := i + |r|;
    assert s[j..] == t[|r|..];
  }

  /** `!s.trim()` holds exactly for the strings made only of whitespace. */
  lemma TrimEmptyIff(s: string)
    ensures Trim(s) == "" <==> AllWhitespace(s)
  {
    var i, j := TrimIsInfix(s);
    if Trim(s) == "" {
      forall k | 0 <= k < |s| ensures IsWhitespace(s[k]) {
        if k < i { assert s[k] == s[..i][k]; } else { assert s[k] == s[j..][k - j]; }
      }
    }
  }

  /** Number of occurrences of `c` in `s`. */
  function Count(s: string, c: char): (n: nat)
    ensures n <= |s|
    ensures n == 0 <==> c !in s
  {
    if s == [] then 0 else (if s[0] == c then 1 else 0) + Count(s[1..], c)
  }

  lemma {:induction false} CountAppend(a: string, b: string, c: char)
    ensures Count(a + b, c) == Count(a, c) + Count(b, c)
  {
    if a != [] {
      assert (a + b)[1..] == a[1..] + b;
      CountAppend(a[1..], b, c);
    } else {
      assert a + b == b;
    }
  }

  /** `s.indexOf(c)` for a character known to occur: its first position. */
  function IndexOf(s: string, c: char): (i: nat)
    requires c in s
    ensures i < |s| && s[i] == c
    ensures forall k | 0 <= k < i :: s[k] != c
  {
    if s[0] == c then 0 else 1 + IndexOf(s[1..], c)
  }

  /** `s.split(c)`: the maximal pieces between occurrences of `c`, always at
      least one (the whole string when `c` does not occur). */
  function Split(s: string, c: char): (parts: seq<string>)
    ensures |parts| >= 1
    ensures c !in s ==> parts == [s]
    decreases |s|
  {
    if c !in s then [s]
    else
      var i := IndexOf(s, c);
      [s[..i]] + Split(s[i + 1..], c)
  }

  /** `lines.join(sep)`. */
  function JoinWith(lines: seq<string>, sep: string): string {
    if |lines| == 0 then ""
    else if |lines| == 1 then lines[0]
    else lines[0] + sep + JoinWith(lines[1..], sep)
  }

  lemma SplitUnfold(s: string, c: char)
    requires c in s
    ensures Split(s, c) == [s[..IndexOf(s, c)]] + Split(s[IndexOf(s, c) + 1..], c)
  {
  }

  /** `line` sits in `text` at position `i` as a whole line: it starts at
      the beginning of the text or after a `\n`, and ends at the end of the
      text or before a `\n`. */
  ghost predicate LineAt(text: string, line: string, i: int) {
    && 0 <= i && i + |line| <= |text|
    && text[i..i + |line|] == line
    && (i == 0 || text[i - 1] == '\n')
    && (i + |line| == |text| || text[i + |line|] == '\n')
  }

  ghost predicate IsLineOf(line: string, text: string) {
    exists i :: LineAt(text, line, i)
  }

  /** Joining a list of two or more: the first line, the separator, then the rest joined. */
  lemma JoinCons(lines: seq<string>, c: char)
    requires |lines| >= 2
    ensures JoinWith(lines, [c]) == (lines[0] + [c]) + JoinWith(lines[1..], [c])
  {
  }

  /** A whole line stays a whole line behind a prefix that ends a line. */
  lemma LineAtShift(head: string, text: string, line: string, i: nat)
    requires |head| > 0 && head[|head| - 1] == '\n'
    requires LineAt(text, line, i)
    ensures LineAt(head + text, line, |head| + i)
  {
    var t := head + text;
    var j := |head| + i;
    assert t[j..j + |line|] == text[i..i + |line|];
    if i == 0 {
      assert t[j - 1] == head[|head| - 1];
    } else {
      assert t[j - 1] == text[i - 1];
    }
  }

  /** Every element of a `'\n'`-joined list is a whole line of the result. */
  lemma {:induction false} JoinHasLine(lines: seq<string>, k: nat) returns (i: nat)
    requires k < |lines|
    ensures LineAt(JoinWith(lines, "\n"), lines[k], i)
  {
    if |lines| == 1 {
      i := 0;
    } else {
      JoinCons(lines, '\n');
      var head := lines[0] + ['\n'];
      var rest := JoinWith(lines[1..], "\n");
      if k == 0 {
        i := 0;
        assert (head + rest)[..|lines[0]|] == lines[0];
        assert (head + rest)[|lines[0]|] == '\n';
      } else {
        var i' := JoinHasLine(lines[1..], k - 1);
        LineAtShift(head, rest, lines[k], i');
        i := |head| + i';
      }
    }
  }

  /** No piece of a split holds the separator. */
  lemma {:induction false} SplitPiecesClean(s: string, c: char)
    ensures forall k | 0 <= k < |Split(s, c)| :: c !in Split(s, c)[k]
    decreases |s|
  {
    if c in s {
      var i := IndexOf(s, c);
      SplitUnfold(s, c);
      SplitPiecesClean(s[i + 1..], c);
      assert c !in s[..i] by {
        forall k | 0 <= k < i ensures s[..i][k] != c { assert s[..i][k] == s[k]; }
      }
    }
  }

  /** Round trip: joining the pieces of a split with the same character
      gives back the string. */
  lemma {:induction false} JoinSplit(s: string, c: char)
    ensures JoinWith(Split(s, c), [c]) == s
    decreases |s|
  {
    if c in s {
      var i := IndexOf(s, c);
      var rest := s[i + 1..];
      assert Split(s, c) == [s[..i]] + Split(rest, c) by { SplitUnfold(s, c); }
      JoinSplit(rest, c);
      JoinFront(s[..i], Split(rest, c), c);
      SliceAround(s, i);
    }
  }

  /** A string is its part before position `i`, the character there, and its part after. */
  lemma SliceAround(s: string, i: nat)
    requires i < |s|
    ensures s == s[..i] + [s[i]] + s[i + 1..]
  {
    assert s[i..] == [s[i]] + s[i + 1..];
    assert s == s[..i] + s[i..];
  }

  /** Joining a line in front of a non-empty list. */
  lemma JoinFront(line: string, lines: seq<string>, c: char)
    requires |lines| >= 1
    ensures JoinWith([line] + lines, [c]) == line + [c] + JoinWith(lines, [c])
  {
    var all := [line] + lines;
    assert all[0] == line && all[1..] == lines;
    JoinCons(all, c);
  }

  /** `split(c)` yields one more piece than there are separators. */
  lemma {:induction false} SplitCount(s: string, c: char)
    ensures |Split(s, c)| == Count(s, c) + 1
    decreases |s|
  {
    if c in s {
      var i := IndexOf(s, c);
      var rest := s[i + 1..];
      assert s == s[..i] + ([c] + rest);
      CountAppend(s[..i], [c] + rest, c);
      CountAppend([c], rest, c);
      assert Count(s[..i], c) == 0;
      assert Count([c], c) == 1;
      SplitUnfold(s, c);
      SplitCount(rest, c);
    }
  }

  /** `s.replace(/c/g, rep)` for a single character `c` and a replacement
      `rep` without `$`: such a `rep` is inserted literally. */
  function ReplaceAll(s: string, c: char, rep: string): (r: string)
    ensures c !in s ==> r == s
  {
    if s == [] then ""
    else (if s[0] == c then rep else [s[0]]) + ReplaceAll(s[1..], c, rep)
  }

  /** Every occurrence of `c` grows the string by `|rep| - 1` characters. */
  lemma {:induction false} ReplaceAllLength(s: string, c: char, rep: string)
    ensures |ReplaceAll(s, c, rep)| == |s| + Count(s, c) * (|rep| - 1)
  {
    if s != [] {
      ReplaceAllLength(s[1..], c, rep);
      var k := Count(s[1..], c);
      if s[0] == c {
        assert (k + 1) * (|rep| - 1) == k * (|rep| - 1) + (|rep| - 1);
      }
    }
  }

  /** Replacing distributes over concatenation. */
  lemma {:induction false} ReplaceAllAppend(a: string, b: string, c: char, rep: string)
    ensures ReplaceAll(a + b, c, rep) == ReplaceAll(a, c, rep) + ReplaceAll(b, c, rep)
  {
    if a == [] {
      assert a + b == b;
    } else {
      assert (a + b)[1..] == a[1..] + b;
      ReplaceAllAppend(a[1..], b, c, rep);
    }
  }

  /** A replacement that does not itself contain `c` removes every `c`, and
      a string without `c` is returned unchanged. */
  lemma {:induction false} ReplaceAllRemoves(s: string, c: char, rep: string)
    requires c !in rep
    ensures c !in ReplaceAll(s, c, rep)
    ensures c !in s ==> ReplaceAll(s, c, rep) == s
  {
    if s != [] {
      ReplaceAllRemoves(s[1..], c, rep);
    }
  }

  /** Replacing every `c` is splitting on `c` and joining with the
      replacement: everything between the occurrences is kept as it is. */
  lemma {:induction false} ReplaceAllIsSplitJoin(s: string, c: char, rep: string)
    ensures ReplaceAll(s, c, rep) == JoinWith(Split(s, c), rep)
    decreases |s|
  {
    if c in s {
      var i := IndexOf(s, c);
      var rest := s[i + 1..];
      assert Split(s, c) == [s[..i]] + Split(rest, c) by { SplitUnfold(s, c); }
      assert c !in s[..i] by {
        forall k | 0 <= k < i ensures s[..i][k] != c { assert s[..i][k] == s[k]; }
      }
      SliceAround(s, i);
      ReplaceAllAppend(s[..i] + [c], rest, c, rep);
      ReplaceAllAppend(s[..i], [c], c, rep);
      assert ReplaceAll([c], c, rep) == rep;
      ReplaceAllIsSplitJoin(rest, c, rep);
      var tail := Split(rest, c);
      var all := [s[..i]] + tail;
      assert all[0] == s[..i] && all[1..] == tail;
      assert JoinWith(all, rep) == s[..i] + rep + JoinWith(tail, rep);
    }
  }
}
