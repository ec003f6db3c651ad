/** String operations of JavaScript and Python that the budget explorer relies on,
    stated over `string` (a sequence of Unicode scalar values). */
module Text {
  import opened Wrappers

  /** The characters that ECMAScript's `String.prototype.trim` and the regular-expression
      class `\s` treat as white space (its WhiteSpace and LineTerminator productions). */
  predicate IsWhite(c: char) {
    c == '\t' || c == '\n' || c == '\U{B}' || c == '\U{C}' || c == '\r' || c == ' ' ||
    c == '\U{A0}' || c == '\U{1680}' || ('\U{2000}' <= c <= '\U{200A}') ||
    c == '\U{2028}' || c == '\U{2029}' || c == '\U{202F}' || c == '\U{205F}' ||
    c == '\U{3000}' || c == '\U{FEFF}'
  }

  /** The characters a regular-expression `.` refuses to match (ECMAScript LineTerminator). */
  predicate IsLineTerminator(c: char) {
    c == '\n' || c == '\r' || c == '\U{2028}' || c == '\U{2029}'
  }

  predicate IsDigit(c: char) { '0' <= c <= '9' }

  function LowerChar(c: char): char {
    if 'A' <= c <= 'Z' then (c as int + 32) as char else c
  }

  function UpperChar(c: char): char {
    if 'a' <= c <= 'z' then (c as int - 32) as char else c
  }

  /** `s.toLowerCase()`, for the ASCII letters. */
  function ToLower(s: string): (r: string)
    ensures |r| == |s|
    ensures forall i :: 0 <= i < |s| ==> r[i] == LowerChar(s[i])
  {
    seq(|s|, i requires 0 <= i < |s| => LowerChar(s[i]))
  }

  /** `s.toUpperCase()`, for the ASCII letters. */
  function ToUpper(s: string): (r: string)
    ensures |r| == |s|
    ensures forall i :: 0 <= i < |s| ==> r[i] == UpperChar(s[i])
  {
    seq(|s|, i requires 0 <= i < |s| => UpperChar(s[i]))
  }

  lemma ToLowerIdempotent(s: string)
    ensures ToLower(ToLower(s)) == ToLower(s)
  {
  }

  predicate StartsWith(s: string, p: string) {
    |p| <= |s| && s[..|p|] == p
  }

  predicate EndsWith(s: string, p: string) {
    |p| <= |s| && s[|s| - |p|..] == p
  }

  /** `s.includes(sub)` (and Python's `sub in s`): some window of `s` equals `sub`. */
  predicate Contains(s: string, sub: string)
    decreases |s|
  {
    StartsWith(s, sub) || (|s| > 0 && Contains(s[1..], sub))
  }

  /** `Contains` holds exactly when `sub` occurs at some position of `s`. */
  lemma {:induction false} ContainsIffOccurs(s: string, sub: string)
    ensures Contains(s, sub) <==> exists k :: 0 <= k <= |s| - |sub| && StartsWith(s[k..], sub)
    decreases |s|
  {
    if |s| > 0 {
      ContainsIffOccurs(s[1..], sub);
      if StartsWith(s, sub) {
        assert s[0..] == s;
      }
      if Contains(s[1..], sub) {
        var k :| 0 <= k <= |s[1..]| - |sub| && StartsWith(s[1..][k..], sub);
        assert s[1..][k..] == s[k + 1..];
        assert StartsWith(s[k + 1..], sub);
      }
      if k :| 0 <= k <= |s| - |sub| && StartsWith(s[k..], sub) {
        if k > 0 {
          assert s[1..][k - 1..] == s[k..];
        }
      }
    } else if |sub| == 0 {
      assert StartsWith(s[0..], sub);
    }
  }

  /** An occurrence in a suffix is an occurrence in the whole string. */
  lemma {:induction false} ContainsSuffix(s: string, k: nat, sub: string)
    requires k <= |s|
    requires Contains(s[k..], sub)
    ensures Contains(s, sub)
    decreases k
  {
    if k > 0 {
      assert s[1..][k - 1..] == s[k..];
      ContainsSuffix(s[1..], k - 1, sub);
    }
  }

  /** A string of two or more characters is its first, its middle and its last. */
  lemma Bracketed(s: string)
    requires |s| >= 2
    ensures s == [s[0]] + s[1..|s| - 1] + [s[|s| - 1]]
  {
  }

  /** The occurrence of a string in any string that embeds it. */
  lemma ContainsInfix(a: string, sub: string, b: string)
    ensures Contains(a + sub + b, sub)
  {
    var s := a + sub + b;
    assert s[|a|..][..|sub|] == sub;
    ContainsSuffix(s, |a|, sub);
  }

  /** Position of the first white-space-free character. */
  function LeadingWhite(s: string): (n: nat)
    ensures n <= |s|
    ensures forall i :: 0 <= i < n ==> IsWhite(s[i])
    ensures n < |s| ==> !IsWhite(s[n])
  {
    if |s| > 0 && IsWhite(s[0]) then 1 + LeadingWhite(s[1..]) else 0
  }

  function TrailingWhite(s: string): (n: nat)
    ensures n <= |s|
    ensures forall i :: |s| - n <= i < |s| ==> IsWhite(s[i])
    ensures n < |s| ==> !IsWhite(s[|s| - 1 - n])
  {
    if |s| > 0 && IsWhite(s[|s| - 1]) then 1 + TrailingWhite(s[..|s| - 1]) else 0
  }

  function TrimStart(s: string): (r: string)
    ensures r == s[LeadingWhite(s)..]
  {
    s[LeadingWhite(s)..]
  }

  function TrimEnd(s: string): (r: string)
    ensures r == s[..|s| - TrailingWhite(s)]
  {
    s[..|s| - TrailingWhite(s)]
  }

  /** `s.trim()` (Python's `str.strip()` on the same white-space set). */
  function Trim(s: string): (r: string)
    ensures r == TrimEnd(TrimStart(s))
    ensures r != "" ==> !IsWhite(r[0]) && !IsWhite(r[|r| - 1])
  {
    TrimEnd(TrimStart(s))
  }

  predicate AllWhite(s: string) {
    forall i :: 0 <= i < |s| ==> IsWhite(s[i])
  }

  /** A string trims to "" exactly when every character of it is white space. */
  lemma TrimEmptyIffAllWhite(s: string)
    ensures Trim(s) == "" <==> AllWhite(s)
  {
  }

  /** `value.trim()` used as a truth value in JavaScript. */
  predicate IsBlank(s: string) {
    Trim(s) == ""
  }

  /** Every character of `s` except those in `drop`, in order (a global regular-expression
      `replace` of a character class by ""). */
  function RemoveChars(s: string, drop: set<char>): (r: string)
    ensures forall i :: 0 <= i < |r| ==> r[i] !in drop
    ensures |r| <= |s|
  {
    if |s| == 0 then "" else
    (if s[0] in drop then "" else [s[0]]) + RemoveChars(s[1..], drop)
  }

  /** Removing characters distributes over concatenation. */
  lemma {:induction false} RemoveCharsAppend(a: string, b: string, drop: set<char>)
    ensures RemoveChars(a + b, drop) == RemoveChars(a, drop) + RemoveChars(b, drop)
    decreases |a|
  {
    if |a| > 0 {
      assert (a + b)[1..] == a[1..] + b;
      RemoveCharsAppend(a[1..], b, drop);
    } else {
      assert a + b == b;
    }
  }

  /** A string with none of the dropped characters is left as it is. */
  lemma {:induction false} RemoveCharsNone(s: string, drop: set<char>)
    requires forall i :: 0 <= i < |s| ==> s[i] !in drop
    ensures RemoveChars(s, drop) == s
    decreases |s|
  {
    if |s| > 0 {
      RemoveCharsNone(s[1..], drop);
      assert [s[0]] + s[1..] == s;
    }
  }

  /** A string that neither starts nor ends with white space trims to itself. */
  lemma TrimNoWhite(s: string)
    requires s != "" ==> !IsWhite(s[0]) && !IsWhite(s[|s| - 1])
    ensures Trim(s) == s
  {
    if s != "" {
      assert LeadingWhite(s) == 0;
      assert s[0..] == s;
      assert TrailingWhite(s) == 0;
      assert s[..|s|] == s;
    }
  }

  /** Every character of `s` that satisfies `keep`, in order. */
  function KeepChars(s: string, keep: char -> bool): (r: string)
    ensures forall i :: 0 <= i < |r| ==> keep(r[i])
    ensures |r| <= |s|
  {
    if |s| == 0 then "" else
    (if keep(s[0]) then [s[0]] else "") + KeepChars(s[1..], keep)
  }

  /** Brackets that are not kept are dropped from around a middle that is kept whole. */
  lemma KeepBracketed(s: string, keep: char -> bool)
    requires |s| >= 2 && !keep(s[0]) && !keep(s[|s| - 1])
    requires KeepChars(s[1..|s| - 1], keep) == s[1..|s| - 1]
    ensures KeepChars(s, keep) == s[1..|s| - 1]
  {
    var d := s[1..|s| - 1];
    Bracketed(s);
    KeepCharsAppend([s[0]] + d, [s[|s| - 1]], keep);
    KeepCharsAppend([s[0]], d, keep);
    assert KeepChars([s[0]], keep) == "" && KeepChars([s[|s| - 1]], keep) == "";
  }

  /** Keeping characters distributes over concatenation. */
  lemma {:induction false} KeepCharsAppend(a: string, b: string, keep: char -> bool)
    ensures KeepChars(a + b, keep) == KeepChars(a, keep) + KeepChars(b, keep)
    decreases |a|
  {
    if |a| > 0 {
      assert (a + b)[1..] == a[1..] + b;
      KeepCharsAppend(a[1..], b, keep);
    } else {
      assert a + b == b;
    }
  }

  /** The texts `line(x)` of the elements, one after another. */
  function Lines<T>(xs: seq<T>, line: T -> string): string
    decreases |xs|
  {
    if |xs| == 0 then "" else Lines(xs[..|xs| - 1], line) + line(xs[|xs| - 1])
  }

  /** `xs.forEach(x => { response += line(x); })`, starting from `start`. */
  method AppendLines<T>(start: string, xs: seq<T>, line: T -> string) returns (response: string)
    ensures response == start + Lines(xs, line)
  {
    response := start;
    var i := 0;
    while i < |xs|
      invariant 0 <= i <= |xs|
      invariant response == start + Lines(xs[..i], line)
    {
      assert xs[..i + 1][..i] == xs[..i];
      response := response + line(xs[i]);
      i := i + 1;
    }
    assert xs[..i] == xs;
  }

  /** The text of a prefix of the elements is a prefix of the whole text: each element's text
      appears in the elements' order. */
  lemma {:induction false} LinesPrefix<T>(xs: seq<T>, k: nat, line: T -> string)
    requires k <= |xs|
    ensures StartsWith(Lines(xs, line), Lines(xs[..k], line))
    decreases |xs| - k
  {
    if k < |xs| {
      LinesPrefix(xs, k + 1, line);
      assert xs[..k + 1][..k] == xs[..k];
      var a := Lines(xs[..k], line);
      var b := Lines(xs[..k + 1], line);
      assert b == a + line(xs[k]);
      assert b[..|a|] == a;
      assert Lines(xs, line)[..|a|] == Lines(xs, line)[..|b|][..|a|];
    } else {
      assert xs[..k] == xs;
    }
  }

  /** `s.replace(/pat/g, rep)` for a literal pattern: occurrences are replaced left to right,
      without overlapping. */
  function ReplaceAll(s: string, pat: string, rep: string): string
    requires |pat| > 0
    decreases |s|
  {
    if |s| == 0 then ""
    else if StartsWith(s, pat) then rep + ReplaceAll(s[|pat|..], pat, rep)
    else [s[0]] + ReplaceAll(s[1..], pat, rep)
  }

  /** A string that does not contain the pattern is left as it is. */
  lemma {:induction false} ReplaceAllAbsent(s: string, pat: string, rep: string)
    requires |pat| > 0 && !Contains(s, pat)
    ensures ReplaceAll(s, pat, rep) == s
    decreases |s|
  {
    if |s| > 0 {
      ReplaceAllAbsent(s[1..], pat, rep);
    }
  }

  /** Replacing a single character distributes over concatenation. */
  lemma {:induction false} ReplaceCharAppend(a: string, b: string, c: char, rep: string)
    ensures ReplaceAll(a + b, [c], rep) == ReplaceAll(a, [c], rep) + ReplaceAll(b, [c], rep)
    decreases |a|
  {
    if |a| > 0 {
      assert (a + b)[1..] == a[1..] + b;
      ReplaceCharAppend(a[1..], b, c, rep);
    } else {
      assert a + b == b;
    }
  }

  /** `s.split(sep)` for a one-character separator: the maximal separator-free pieces. */
  function Split(s: string, sep: char): (parts: seq<string>)
    ensures |parts| >= 1
    decreases |s|
  {
    if |s| == 0 then [""]
    else
      var rest := Split(s[1..], sep);
      if s[0] == sep then [""] + rest
      else [[s[0]] + rest[0]] + rest[1..]
  }

  /** `parts.join(sep)`. */
  function Join(parts: seq<string>, sep: string): string
    decreases |parts|
  {
    if |parts| == 0 then ""
    else if |parts| == 1 then parts[0]
    else parts[0] + sep + Join(parts[1..], sep)
  }

  /** Joining the pieces of a split with the separator gives back the string. */
  lemma {:induction false} JoinSplit(s: string, sep: char)
    ensures Join(Split(s, sep), [sep]) == s
    decreases |s|
  {
    if |s| > 0 {
      var rest := Split(s[1..], sep);
      JoinSplit(s[1..], sep);
      if s[0] != sep {
        var parts := Split(s, sep);
        if |rest| == 1 {
          assert parts == [[s[0]] + rest[0]];
        } else {
          assert parts[1..] == rest[1..];
          assert Join(rest, [sep]) == rest[0] + [sep] + Join(rest[1..], [sep]);
        }
      }
    }
  }

  /** No piece of a split holds the separator. */
  lemma {:induction false} SplitPiecesFree(s: string, sep: char)
    ensures forall i :: 0 <= i < |Split(s, sep)| ==> sep !in Split(s, sep)[i]
    decreases |s|
  {
    if |s| > 0 {
      SplitPiecesFree(s[1..], sep);
    }
  }

  /** A separator-free prefix becomes the first piece of the split. */
  lemma {:induction false} SplitAfterFree(a: string, sep: char, b: string)
    requires sep !in a
    ensures Split(a + [sep] + b, sep) == [a] + Split(b, sep)
    decreases |a|
  {
    var s := a + [sep] + b;
    if |a| == 0 {
      assert s[1..] == b;
    } else {
      assert s[1..] == a[1..] + [sep] + b;
      SplitAfterFree(a[1..], sep, b);
      assert [a[0]] + a[1..] == a;
    }
  }

  /** A separator-free string splits into itself alone. */
  lemma {:induction false} SplitFree(a: string, sep: char)
    requires sep !in a
    ensures Split(a, sep) == [a]
    decreases |a|
  {
    if |a| > 0 {
      SplitFree(a[1..], sep);
      assert [a[0]] + a[1..] == a;
    }
  }

  /** The length of the longest prefix of `s` a regular-expression `.*` can match. */
  function LineRun(s: string): (n: nat)
    ensures n <= |s| && (n == |s| || IsLineTerminator(s[n]))
    ensures forall k :: 0 <= k < n ==> !IsLineTerminator(s[k])
    decreases |s|
  {
    if |s| == 0 || IsLineTerminator(s[0]) then 0 else 1 + LineRun(s[1..])
  }

  /** A string free of line terminators is matched by `.*` as a whole. */
  lemma {:induction false} LineRunAll(s: string)
    requires forall k :: 0 <= k < |s| ==> !IsLineTerminator(s[k])
    ensures LineRun(s) == |s|
    decreases |s|
  {
    if |s| > 0 {
      LineRunAll(s[1..]);
    }
  }

  /** The position of the last `c` among the first `n` characters of `s`: where a greedy
      `.*` followed by `c` stops. */
  function LastIndexOf(s: string, n: nat, c: char): (r: Option<nat>)
    requires n <= |s|
    ensures r.None? <==> forall k :: 0 <= k < n ==> s[k] != c
    ensures r.Some? ==> r.value < n && s[r.value] == c &&
                        forall k :: r.value < k < n ==> s[k] != c
  {
    if n == 0 then None
    else if s[n - 1] == c then Some(n - 1)
    else LastIndexOf(s, n - 1, c)
  }
}
