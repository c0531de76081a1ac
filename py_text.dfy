/**
  The Python `str` operations the contact pipeline and the templates rely on,
  on strings of code points (Dafny's `string`, like Python's `str`, is a
  sequence of Unicode scalar values, so `len` is `|s|`).
 */
module PyText {

  // ---------------------------------------------------------------------------
  // Character classes
  // ---------------------------------------------------------------------------

  predicate IsAsciiUpper(c: char) { 'A' <= c <= 'Z' }
  predicate IsAsciiLower(c: char) { 'a' <= c <= 'z' }
  predicate IsAsciiLetter(c: char) { IsAsciiUpper(c) || IsAsciiLower(c) }
  predicate IsAsciiDigit(c: char) { '0' <= c <= '9' }

  /** Python's `str.isspace()` for one code point: the characters `str.strip()` removes. */
  predicate IsSpace(c: char) {
    || c == ' ' || ('\t' <= c <= '\r') || ('\U{1c}' <= c <= '\U{1f}')
    || c == '\U{85}' || c == '\U{a0}' || c == '\U{1680}' || ('\U{2000}' <= c <= '\U{200a}')
    || c == '\U{2028}' || c == '\U{2029}' || c == '\U{202f}' || c == '\U{205f}' || c == '\U{3000}'
  }

  function LowerChar(c: char): (d: char)
    ensures IsAsciiUpper(c) ==> IsAsciiLower(d) && d as int == c as int + 32
    ensures !IsAsciiUpper(c) ==> d == c
  {
    if IsAsciiUpper(c) then (c as int + 32) as char else c
  }

  function UpperChar(c: char): (d: char)
    ensures IsAsciiLower(c) ==> IsAsciiUpper(d) && d as int == c as int - 32
    ensures !IsAsciiLower(c) ==> d == c
  {
    if IsAsciiLower(c) then (c as int - 32) as char else c
  }

  // ---------------------------------------------------------------------------
  // Slicing, searching, stripping
  // ---------------------------------------------------------------------------

  /** Python's `s[:n]`: the first n code points, or all of s when it is shorter; a negative n drops that many from the end. */
  function Prefix(s: string, n: int): (r: string)
    ensures r <= s
    ensures 0 <= n ==> |r| == (if n < |s| then n else |s|)
    ensures 0 <= n && |s| <= n ==> r == s
  {
    if n >= 0 then (if n < |s| then s[..n] else s)
    else if |s| + n > 0 then s[..|s| + n] else []
  }

  /** Index of the first occurrence of c in s, or |s| when there is none. */
  function IndexOf(s: string, c: char): (i: nat)
    ensures i <= |s|
    ensures i < |s| ==> s[i] == c
    ensures forall k :: 0 <= k < i ==> s[k] != c
  {
    if s == [] then 0
    else if s[0] == c then 0
    else 1 + IndexOf(s[1..], c)
  }

  /** Index of the last occurrence of c in s (Python's `s.rfind(c)`), or -1 when there is none. */
  function LastIndexOf(s: string, c: char): (i: int)
    ensures -1 <= i < |s|
    ensures 0 <= i ==> s[i] == c
    ensures forall k :: i < k < |s| ==> s[k] != c
  {
    if s == [] then -1
    else if s[|s| - 1] == c then |s| - 1
    else LastIndexOf(s[..|s| - 1], c)
  }

  /** The first occurrence is at i when c is at i and nowhere before. */
  lemma IndexOfIs(s: string, c: char, i: nat)
    requires i < |s| && s[i] == c
    requires forall k :: 0 <= k < i ==> s[k] != c
    ensures IndexOf(s, c) == i
  {
  }

  /** The last occurrence is at i when c is at i and nowhere after. */
  lemma LastIndexOfIs(s: string, c: char, i: nat)
    requires i < |s| && s[i] == c
    requires forall k :: i < k < |s| ==> s[k] != c
    ensures LastIndexOf(s, c) == i
  {
  }

  /** The first index at or after i that does not hold whitespace, or |s|. */
  function SkipLeading(s: string, i: nat): (j: nat)
    requires i <= |s|
    ensures i <= j <= |s|
    decreases |s| - i
  {
    if i < |s| && IsSpace(s[i]) then SkipLeading(s, i + 1) else i
  }

  /** The end of s[lo..hi] once its trailing whitespace is dropped. */
  function SkipTrailing(s: string, lo: nat, hi: nat): (j: nat)
    requires lo <= hi <= |s|
    ensures lo <= j <= hi
    decreases hi
  {
    if lo < hi && IsSpace(s[hi - 1]) then SkipTrailing(s, lo, hi - 1) else hi
  }

  /** Python's `s.strip()`: s without its leading and trailing whitespace. */
  function Strip(s: string): (r: string)
    ensures |r| <= |s|
  {
    var i := SkipLeading(s, 0);
    s[i..SkipTrailing(s, i, |s|)]
  }

  lemma {:induction false} SkipLeadingFacts(s: string, i: nat)
    requires i <= |s|
    ensures forall k :: i <= k < SkipLeading(s, i) ==> IsSpace(s[k])
    ensures SkipLeading(s, i) < |s| ==> !IsSpace(s[SkipLeading(s, i)])
    decreases |s| - i
  {
    if i < |s| && IsSpace(s[i]) {
      SkipLeadingFacts(s, i + 1);
    }
  }

  lemma {:induction false} SkipTrailingFacts(s: string, lo: nat, hi: nat)
    requires lo <= hi <= |s|
    ensures forall k :: SkipTrailing(s, lo, hi) <= k < hi ==> IsSpace(s[k])
    ensures lo < SkipTrailing(s, lo, hi) ==> !IsSpace(s[SkipTrailing(s, lo, hi) - 1])
    decreases hi
  {
    if lo < hi && IsSpace(s[hi - 1]) {
      SkipTrailingFacts(s, lo, hi - 1);
    }
  }

  /** The strip is empty exactly when s is all whitespace (Python's `not s.strip()`). */
  lemma StripEmpty(s: string)
    ensures Strip(s) == [] <==> forall k :: 0 <= k < |s| ==> IsSpace(s[k])
  {
    var i := SkipLeading(s, 0);
    var j := SkipTrailing(s, i, |s|);
    SkipLeadingFacts(s, 0);
    SkipTrailingFacts(s, i, |s|);
    if i < |s| {
      assert !IsSpace(s[i]);
      assert i < j;
    }
  }

  /** A non-empty strip starts and ends with code points that are not whitespace, and only whitespace was dropped around it. */
  lemma StripEnds(s: string)
    ensures var r := Strip(s); r != [] ==> !IsSpace(r[0]) && !IsSpace(r[|r| - 1])
    ensures exists i, j ::
      && 0 <= i <= j <= |s| && Strip(s) == s[i..j]
      && (forall k :: 0 <= k < i ==> IsSpace(s[k]))
      && (forall k :: j <= k < |s| ==> IsSpace(s[k]))
  {
    var i := SkipLeading(s, 0);
    var j := SkipTrailing(s, i, |s|);
    SkipLeadingFacts(s, 0);
    SkipTrailingFacts(s, i, |s|);
    assert Strip(s) == s[i..j];
  }

  /** A string whose first and last code points are not whitespace is its own strip, also with one newline after it. */
  lemma StripTrimmed(s: string)
    requires s != [] && !IsSpace(s[0]) && !IsSpace(s[|s| - 1])
    ensures Strip(s) == s
    ensures Strip(s + "\n") == s
  {
    var t := s + "\n";
    assert SkipLeading(s, 0) == 0;
    assert SkipTrailing(s, 0, |s|) == |s|;
    assert s[0..|s|] == s;
    assert t[0] == s[0] && t[|t| - 1] == '\n' && t[|s| - 1] == s[|s| - 1];
    assert SkipLeading(t, 0) == 0;
    assert SkipTrailing(t, 0, |t|) == SkipTrailing(t, 0, |s|) == |s|;
    assert t[0..|s|] == s;
  }

  /** Python's `s.lower()` on ASCII letters; every other code point is kept. */
  function AsciiLower(s: string): (r: string)
    ensures |r| == |s|
    ensures forall k :: 0 <= k < |s| ==> r[k] == LowerChar(s[k])
  {
    seq(|s|, k requires 0 <= k < |s| => LowerChar(s[k]))
  }

  /** Python's `d.get(key, default)` on a dictionary of strings. */
  function DictGet(d: map<string, string>, key: string, default: string): string {
    if key in d then d[key] else default
  }

  // ---------------------------------------------------------------------------
  // Replacing
  // ---------------------------------------------------------------------------

  /** Python's `s.replace(pat, rep)`: every non-overlapping occurrence of pat, scanning from the left, becomes rep. */
  function Replace(s: string, pat: string, rep: string): (r: string)
    requires pat != []
    decreases |s|
  {
    if |s| < |pat| then s
    else if s[..|pat|] == pat then rep + Replace(s[|pat|..], pat, rep)
    else [s[0]] + Replace(s[1..], pat, rep)
  }

  /** A string in which the pattern's first code point never occurs is left unchanged. */
  lemma {:induction false} ReplaceAbsent(s: string, pat: string, rep: string)
    requires pat != []
    requires forall k :: 0 <= k < |s| ==> s[k] != pat[0]
    ensures Replace(s, pat, rep) == s
    decreases |s|
  {
    if |s| >= |pat| {
      assert s[..|pat|][0] == s[0];
      ReplaceAbsent(s[1..], pat, rep);
    }
  }

  /** A replacement no longer than the pattern never makes the string longer. */
  lemma {:induction false} ReplaceShrinks(s: string, pat: string, rep: string)
    requires pat != [] && |rep| <= |pat|
    ensures |Replace(s, pat, rep)| <= |s|
    decreases |s|
  {
    if |s| >= |pat| {
      if s[..|pat|] == pat {
        ReplaceShrinks(s[|pat|..], pat, rep);
      } else {
        ReplaceShrinks(s[1..], pat, rep);
      }
    }
  }

  /** A first code point that cannot start the pattern is copied, and replacing goes on after it. */
  lemma ReplaceSkip(s: string, pat: string, rep: string)
    requires pat != [] && s != [] && s[0] != pat[0]
    ensures Replace(s, pat, rep) == [s[0]] + Replace(s[1..], pat, rep)
  {
    if |s| >= |pat| {
      assert s[..|pat|][0] == s[0];
    } else {
      assert Replace(s[1..], pat, rep) == s[1..];
      assert s == [s[0]] + s[1..];
    }
  }

  /** A front part without the pattern's first code point is copied, and replacing goes on after it. */
  lemma {:induction false} ReplacePlainPrefix(a: string, b: string, pat: string, rep: string)
    requires pat != []
    requires forall k :: 0 <= k < |a| ==> a[k] != pat[0]
    ensures Replace(a + b, pat, rep) == a + Replace(b, pat, rep)
    decreases |a|
  {
    if a == [] {
      assert a + b == b;
    } else {
      var s := a + b;
      ReplacePlainPrefix(a[1..], b, pat, rep);
      assert s[0] == a[0] && s[1..] == a[1..] + b;
      ReplaceSkip(s, pat, rep);
      assert [a[0]] + (a[1..] + Replace(b, pat, rep)) == a + Replace(b, pat, rep);
    }
  }

  /** An occurrence at the very start is replaced, and replacing goes on after it. */
  lemma ReplaceAtStart(pat: string, b: string, rep: string)
    requires pat != []
    ensures Replace(pat + b, pat, rep) == rep + Replace(b, pat, rep)
  {
    var s := pat + b;
    assert s[..|pat|] == pat && s[|pat|..] == b;
  }

  /** Replacing one code point works character by character. */
  lemma {:induction false} ReplaceCharCons(x: char, t: string, c: char, rep: string)
    ensures Replace([x] + t, [c], rep) == (if x == c then rep else [x]) + Replace(t, [c], rep)
  {
    var s := [x] + t;
    assert s[..1] == [x];
    assert s[1..] == t;
  }

  /** Replacing one code point distributes over concatenation. */
  lemma {:induction false} ReplaceCharConcat(a: string, b: string, c: char, rep: string)
    ensures Replace(a + b, [c], rep) == Replace(a, [c], rep) + Replace(b, [c], rep)
    decreases |a|
  {
    if a == [] {
      assert a + b == b;
    } else {
      var x, t := a[0], a[1..];
      var head := if x == c then rep else [x];
      assert a == [x] + t;
      assert a + b == [x] + (t + b);
      ReplaceCharCons(x, t + b, c, rep);
      ReplaceCharCons(x, t, c, rep);
      ReplaceCharConcat(t, b, c, rep);
      calc {
        Replace(a + b, [c], rep);
        Replace([x] + (t + b), [c], rep);
        head + Replace(t + b, [c], rep);
        head + (Replace(t, [c], rep) + Replace(b, [c], rep));
        (head + Replace(t, [c], rep)) + Replace(b, [c], rep);
        Replace([x] + t, [c], rep) + Replace(b, [c], rep);
      }
    }
  }

  /** Replacing one code point by another maps the string code point by code point. */
  lemma {:induction false} ReplaceCharByChar(s: string, c: char, d: char)
    ensures |Replace(s, [c], [d])| == |s|
    ensures forall k :: 0 <= k < |s| ==> Replace(s, [c], [d])[k] == (if s[k] == c then d else s[k])
    decreases |s|
  {
    if s != [] {
      assert s == [s[0]] + s[1..];
      ReplaceCharCons(s[0], s[1..], c, [d]);
      ReplaceCharByChar(s[1..], c, d);
    }
  }

  // ---------------------------------------------------------------------------
  // Title case
  // ---------------------------------------------------------------------------

  /**
    Python's `str.title()` restricted to ASCII: a letter is upper-cased when the
    code point before it is not a letter and lower-cased otherwise; every other
    code point is kept and ends the current word.
   */
  function Title(s: string): (r: string) {
    TitleAfter(s, false)
  }

  /** Title case of s when the code point just before s is a letter (afterLetter) or not. */
  function TitleAfter(s: string, afterLetter: bool): (r: string)
    ensures |r| == |s|
    ensures forall k :: 0 <= k < |s| ==> (IsAsciiLetter(r[k]) <==> IsAsciiLetter(s[k]))
    ensures forall k :: 0 <= k < |s| && !IsAsciiLetter(s[k]) ==> r[k] == s[k]
  {
    if s == [] then []
    else if IsAsciiLetter(s[0]) then
      [if afterLetter then LowerChar(s[0]) else UpperChar(s[0])] + TitleAfter(s[1..], true)
    else [s[0]] + TitleAfter(s[1..], false)
  }

  /** A space ends a word: the text after it is title-cased on its own. */
  lemma {:induction false} TitleAfterSpace(a: string, b: string, afterLetter: bool)
    ensures TitleAfter(a + " " + b, afterLetter) == TitleAfter(a, afterLetter) + " " + TitleAfter(b, false)
    decreases |a|
  {
    var s := a + " " + b;
    if a == [] {
      assert s == [' '] + b && s[1..] == b;
    } else {
      var next := IsAsciiLetter(a[0]);
      assert s[0] == a[0] && s[1..] == a[1..] + " " + b;
      TitleAfterSpace(a[1..], b, next);
    }
  }

  /** Title case is idempotent: a title-cased string is already in title case. */
  lemma {:induction false} TitleIdempotent(s: string)
    ensures Title(Title(s)) == Title(s)
  {
    TitleAfterIdempotent(s, false);
  }

  lemma {:induction false} TitleAfterIdempotent(s: string, afterLetter: bool)
    ensures TitleAfter(TitleAfter(s, afterLetter), afterLetter) == TitleAfter(s, afterLetter)
    decreases |s|
  {
    if s != [] {
      var t := TitleAfter(s, afterLetter);
      var next := IsAsciiLetter(s[0]);
      assert t == [t[0]] + TitleAfter(s[1..], next);
      assert t[1..] == TitleAfter(s[1..], next);
      TitleAfterIdempotent(s[1..], next);
    }
  }

  // ---------------------------------------------------------------------------
  // Splitting and joining
  // ---------------------------------------------------------------------------

  /** Python's `s.split(sep)` for a one-character separator: the pieces between separators, empty ones included. */
  function Split(s: string, sep: char): (parts: seq<string>)
    ensures |parts| >= 1
    ensures forall k :: 0 <= k < |parts| ==> sep !in parts[k]
    decreases |s|
  {
    var i := IndexOf(s, sep);
    if i == |s| then
      assert forall k :: 0 <= k < |s| ==> s[k] != sep;
      [s]
    else
      assert forall k :: 0 <= k < |s[..i]| ==> s[..i][k] != sep;
      [s[..i]] + Split(s[i + 1..], sep)
  }

  /** Python's `sep.join(parts)`. */
  function Join(parts: seq<string>, sep: string): (r: string)
    decreases |parts|
  {
    if |parts| == 0 then []
    else if |parts| == 1 then parts[0]
    else parts[0] + sep + Join(parts[1..], sep)
  }

  /** Splitting and joining with the same separator gives back the original text. */
  lemma {:induction false} SplitJoin(s: string, sep: char)
    ensures Join(Split(s, sep), [sep]) == s
    decreases |s|
  {
    var i := IndexOf(s, sep);
    if i < |s| {
      var rest := Split(s[i + 1..], sep);
      var parts := [s[..i]] + rest;
      assert Split(s, sep) == parts;
      assert parts[0] == s[..i] && parts[1..] == rest && |parts| >= 2;
      assert Join(parts, [sep]) == s[..i] + [sep] + Join(rest, [sep]);
      SplitJoin(s[i + 1..], sep);
      assert s == s[..i] + [sep] + s[i + 1..];
    } else {
      assert Split(s, sep) == [s];
    }
  }

  // ---------------------------------------------------------------------------
  // Concatenation of fragments and containment
  // ---------------------------------------------------------------------------

  /** Python's `''.join(parts)`: the fragments one after another. */
  function Concat(parts: seq<string>): (r: string)
    decreases |parts|
  {
    if parts == [] then [] else parts[0] + Concat(parts[1..])
  }

  /** t occurs in s starting at index i. */
  predicate OccursAt(t: string, s: string, i: nat) {
    i + |t| <= |s| && s[i..i + |t|] == t
  }

  /** Python's `t in s` for strings: t is a contiguous part of s. */
  ghost predicate Contains(s: string, t: string) {
    exists i: nat :: OccursAt(t, s, i)
  }

  lemma {:induction false} ConcatAppend(a: seq<string>, b: seq<string>)
    ensures Concat(a + b) == Concat(a) + Concat(b)
    decreases |a|
  {
    if a == [] {
      assert a + b == b;
    } else {
      assert (a + b)[1..] == a[1..] + b;
      ConcatAppend(a[1..], b);
    }
  }

  /** One more fragment at the end is one more piece of text at the end. */
  lemma ConcatSnoc(parts: seq<string>, x: string)
    ensures Concat(parts + [x]) == Concat(parts) + x
  {
    ConcatAppend(parts, [x]);
    assert [x][1..] == [];
  }

  lemma ContainsMiddle(a: string, t: string, b: string)
    ensures Contains(a + t + b, t)
  {
    assert OccursAt(t, a + t + b, |a|);
  }

  /** Containment is transitive: a part of a part of s is a part of s. */
  lemma ContainsTrans(s: string, t: string, u: string)
    requires Contains(s, t) && Contains(t, u)
    ensures Contains(s, u)
  {
    var i: nat :| OccursAt(t, s, i);
    var j: nat :| OccursAt(u, t, j);
    assert j + |u| <= |t| && i + |t| <= |s|;
    forall k | 0 <= k < |u| ensures s[i + j..i + j + |u|][k] == u[k] {
      assert u[k] == t[j + k] == s[i..i + |t|][j + k];
    }
    assert s[i + j..i + j + |u|] == u;
    assert OccursAt(u, s, i + j);
  }

  /** Every run of consecutive fragments occurs in their concatenation. */
  lemma {:induction false} ConcatContainsRun(parts: seq<string>, i: nat, j: nat)
    requires i <= j <= |parts|
    ensures Contains(Concat(parts), Concat(parts[i..j]))
  {
    assert parts == parts[..i] + parts[i..j] + parts[j..];
    ConcatAppend(parts[..i] + parts[i..j], parts[j..]);
    ConcatAppend(parts[..i], parts[i..j]);
    ContainsMiddle(Concat(parts[..i]), Concat(parts[i..j]), Concat(parts[j..]));
  }

  /** Every fragment occurs in the concatenation. */
  lemma ConcatContains(parts: seq<string>, k: nat)
    requires k < |parts|
    ensures Contains(Concat(parts), parts[k])
  {
    ConcatContainsRun(parts, k, k + 1);
    var one := parts[k..k + 1];
    assert one == [parts[k]] && one[1..] == [];
    assert Concat(one) == parts[k];
  }

  // ---------------------------------------------------------------------------
  // Decimal text of integers (Python's `str(n)` / `f"{n}"`)
  // ---------------------------------------------------------------------------

  function DigitChar(d: nat): (c: char)
    requires d < 10
    ensures IsAsciiDigit(c) && c as int - '0' as int == d
  {
    (d + '0' as int) as char
  }

  /** Decimal digits of n, most significant first, without leading zeros. */
  function NatText(n: nat): (r: string)
    ensures r != []
    ensures forall k :: 0 <= k < |r| ==> IsAsciiDigit(r[k])
    decreases n
  {
    if n < 10 then [DigitChar(n)] else NatText(n / 10) + [DigitChar(n % 10)]
  }

  /** Python's `str(i)` for an int. */
  function IntText(i: int): string {
    if i < 0 then "-" + NatText(-i) else NatText(i)
  }

  /** The number a string of decimal digits denotes. */
  function DigitsValue(s: string): nat
    requires forall k :: 0 <= k < |s| ==> IsAsciiDigit(s[k])
  {
    if s == [] then 0
    else
      assert IsAsciiDigit(s[|s| - 1]);
      DigitsValue(s[..|s| - 1]) * 10 + (s[|s| - 1] as int - '0' as int)
  }

  /** Decimal text reads back as the number it was made from, so distinct numbers have distinct texts. */
  lemma {:induction false} NatTextValue(n: nat)
    ensures DigitsValue(NatText(n)) == n
    decreases n
  {
    if n >= 10 {
      var r := NatText(n);
      assert r[..|r| - 1] == NatText(n / 10);
      NatTextValue(n / 10);
    }
  }
}
