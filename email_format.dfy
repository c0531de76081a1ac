/**
  `validate_email`: `re.match` of `^[a-zA-Z0-9._%+-]+@[a-zA-Z0-9.-]+\.[a-zA-Z]{2,}$`.

  The regular expression's language is stated as a ghost predicate (an
  existential split of the string into its four parts); the check itself is a
  direct scan (the first `@`, the last `.` after it) proved to decide exactly
  that language. Python's `$` also matches just before a final newline, so a
  shape-valid address followed by one `"\n"` is accepted as well.
 */
module EmailFormat {
  import opened PyText

  /** `[a-zA-Z0-9._%+-]`, the local-part class. */
  predicate IsLocalChar(c: char) {
    IsAsciiLetter(c) || IsAsciiDigit(c) || c == '.' || c == '_' || c == '%' || c == '+' || c == '-'
  }

  /** `[a-zA-Z0-9.-]`, the domain class. */
  predicate IsDomainChar(c: char) {
    IsAsciiLetter(c) || IsAsciiDigit(c) || c == '.' || c == '-'
  }

  predicate AllLocal(s: string) { forall k :: 0 <= k < |s| ==> IsLocalChar(s[k]) }
  predicate AllDomain(s: string) { forall k :: 0 <= k < |s| ==> IsDomainChar(s[k]) }
  predicate AllLetters(s: string) { forall k :: 0 <= k < |s| ==> IsAsciiLetter(s[k]) }

  /** s splits as local `@` domain `.` tld with the '@' at index at and the '.' at index dot. */
  predicate SplitsAt(s: string, at: int, dot: int) {
    && 0 < at && at + 1 < dot && dot + 2 < |s|
    && s[at] == '@' && s[dot] == '.'
    && AllLocal(s[..at]) && AllDomain(s[at + 1..dot]) && AllLetters(s[dot + 1..])
  }

  /** The language of the pattern without its anchors: the whole of s matches it. */
  ghost predicate MatchesPattern(s: string) {
    exists at, dot :: SplitsAt(s, at, dot)
  }

  /** The domain check: a '.' with a non-empty `[a-zA-Z0-9.-]` text before it and two or more letters after the last one. */
  predicate DomainShape(d: string) {
    var dot := LastIndexOf(d, '.');
    dot >= 1 && AllDomain(d[..dot]) && |d| - dot >= 3 && AllLetters(d[dot + 1..])
  }

  /** The whole-string check: a non-empty local part up to the first '@', then a domain of the right shape. */
  predicate AddressShape(s: string) {
    var at := IndexOf(s, '@');
    at < |s| && 0 < at && AllLocal(s[..at]) && DomainShape(s[at + 1..])
  }

  /** The scan decides exactly the pattern's language. */
  lemma AddressShapeIsPattern(s: string)
    ensures AddressShape(s) <==> MatchesPattern(s)
  {
    if AddressShape(s) {
      ShapeSplits(s);
    }
    if MatchesPattern(s) {
      var at, dot :| SplitsAt(s, at, dot);
      SplitHasShape(s, at, dot);
    }
  }

  /** A string the scan accepts splits at its first '@' and the last '.' after it. */
  lemma ShapeSplits(s: string)
    requires AddressShape(s)
    ensures MatchesPattern(s)
  {
    var at := IndexOf(s, '@');
    var d := s[at + 1..];
    var k := LastIndexOf(d, '.');
    assert 1 <= k && AllDomain(d[..k]) && |d| - k >= 3 && AllLetters(d[k + 1..]) by {
      assert DomainShape(d);
    }
    var dot := at + 1 + k;
    SliceParts(s, at, dot);
    assert AllLocal(s[..at]);
    assert AllDomain(s[at + 1..dot]);
    assert AllLetters(s[dot + 1..]);
    assert SplitsAt(s, at, dot);
  }

  /** The domain text between the '@' and the '.', and the text after the '.', as slices of the text after the '@'. */
  lemma SliceParts(s: string, at: int, dot: int)
    requires 0 <= at < dot < |s|
    ensures s[at + 1..][..dot - at - 1] == s[at + 1..dot]
    ensures s[at + 1..][dot - at..] == s[dot + 1..]
  {
  }

  /** A '.' at index k, none after it, and the pieces of the right classes and lengths give the domain shape. */
  lemma DomainAt(d: string, k: int)
    requires 1 <= k < |d| && d[k] == '.' && |d| - k >= 3
    requires AllDomain(d[..k]) && AllLetters(d[k + 1..])
    ensures DomainShape(d)
  {
    forall j | k < j < |d| ensures d[j] != '.' {
      assert d[j] == d[k + 1..][j - k - 1];
    }
    LastIndexOfIs(d, '.', k);
  }

  /** A split into the pattern's parts is the one the scan finds. */
  lemma SplitHasShape(s: string, at: int, dot: int)
    requires SplitsAt(s, at, dot)
    ensures AddressShape(s)
  {
    forall k | 0 <= k < at ensures s[k] != '@' {
      assert s[..at][k] == s[k];
    }
    IndexOfIs(s, '@', at);
    SliceParts(s, at, dot);
    DomainAt(s[at + 1..], dot - at - 1);
  }

  lemma ShapesArePatterns(email: string)
    ensures AddressShape(email) <==> MatchesPattern(email)
    ensures email != [] ==> (AddressShape(email[..|email| - 1]) <==> MatchesPattern(email[..|email| - 1]))
  {
    AddressShapeIsPattern(email);
    if email != [] { AddressShapeIsPattern(email[..|email| - 1]); }
  }

  /** `validate_email(email)` (contact_form.py, lines 65-76): the scan on the whole text, or on the text before one final newline. */
  predicate ValidateEmail(email: string) {
    || AddressShape(email)
    || (email != [] && email[|email| - 1] == '\n' && AddressShape(email[..|email| - 1]))
  }

  /** The validator accepts exactly what `re.match` with the pattern accepts: a match, or a match followed by one newline. */
  lemma ValidateEmailIsMatch(email: string)
    ensures ValidateEmail(email) <==>
      || MatchesPattern(email)
      || (email != [] && email[|email| - 1] == '\n' && MatchesPattern(email[..|email| - 1]))
  {
    ShapesArePatterns(email);
  }

  /** The address without the one trailing newline Python's `$` lets through. */
  function Core(email: string): (c: string)
    ensures c == email || c + "\n" == email
  {
    if email != [] && email[|email| - 1] == '\n' then email[..|email| - 1] else email
  }

  /** A matching string ends in two letters. */
  lemma PatternEndsWithLetters(s: string)
    requires MatchesPattern(s)
    ensures |s| >= 2 && IsAsciiLetter(s[|s| - 1]) && IsAsciiLetter(s[|s| - 2])
  {
    var at, dot :| SplitsAt(s, at, dot);
    assert s[|s| - 1] == s[dot + 1..][|s| - dot - 2];
    assert s[|s| - 2] == s[dot + 1..][|s| - dot - 3];
  }

  /** A string ending in a newline does not match the pattern itself. */
  lemma NewlineEndNoMatch(s: string)
    requires s != [] && s[|s| - 1] == '\n'
    ensures !MatchesPattern(s)
  {
    if MatchesPattern(s) { PatternEndsWithLetters(s); }
  }

  /** What the validator accepts is a pattern match once the newline `$` allows is dropped. */
  lemma CoreMatches(email: string)
    requires ValidateEmail(email)
    ensures MatchesPattern(Core(email))
  {
    ValidateEmailIsMatch(email);
    if email != [] && email[|email| - 1] == '\n' {
      NewlineEndNoMatch(email);
    }
  }

  /** The code points of a split string: one '@', no '.' after the split's dot, a local code point first and a letter last. */
  lemma SplitCharFacts(c: string, at: int, dot: int)
    requires SplitsAt(c, at, dot)
    ensures forall k :: 0 <= k < |c| && k != at ==> c[k] != '@'
    ensures forall k :: dot < k < |c| ==> c[k] != '.'
    ensures IsLocalChar(c[0]) && IsAsciiLetter(c[|c| - 1])
  {
    forall k | 0 <= k < at ensures c[k] != '@' {
      assert c[..at][k] == c[k];
    }
    forall k | at < k < dot ensures c[k] != '@' {
      assert c[at + 1..dot][k - at - 1] == c[k];
    }
    forall k | dot < k < |c| ensures c[k] != '@' && c[k] != '.' {
      assert c[dot + 1..][k - dot - 1] == c[k];
    }
    assert c[..at][0] == c[0];
  }

  /** What an accepted address looks like: exactly one '@', with a non-empty local part before it, and a domain whose text after its last '.' is two or more letters; at most one newline follows. */
  lemma AcceptedShape(email: string)
    requires ValidateEmail(email)
    ensures exists at, dot ::
      && SplitsAt(Core(email), at, dot)
      && email[at] == '@' && email[dot] == '.'
      && (forall k :: 0 <= k < |email| && k != at ==> email[k] != '@')
      && (forall k :: dot < k < |email| ==> email[k] != '.')
  {
    CoreMatches(email);
    var c := Core(email);
    var at, dot :| SplitsAt(c, at, dot);
    SplitCharFacts(c, at, dot);
    assert forall k :: 0 <= k < |c| ==> email[k] == c[k];
    assert |email| == |c| || email[|c|] == '\n';
  }

  /** A string without '@' is rejected. */
  lemma RejectsWithoutAt(email: string)
    requires forall k :: 0 <= k < |email| ==> email[k] != '@'
    ensures !ValidateEmail(email)
  {
    if ValidateEmail(email) { AcceptedShape(email); }
  }

  /** A string with two '@' is rejected. */
  lemma RejectsTwoAts(email: string, i: nat, j: nat)
    requires i < j < |email| && email[i] == '@' && email[j] == '@'
    ensures !ValidateEmail(email)
  {
    if ValidateEmail(email) { AcceptedShape(email); }
  }

  /** A string with no '.' after an '@' is rejected. */
  lemma RejectsNoDotAfterAt(email: string, at: nat)
    requires at < |email| && email[at] == '@'
    requires forall k :: at < k < |email| ==> email[k] != '.'
    ensures !ValidateEmail(email)
  {
    if ValidateEmail(email) { AcceptedShape(email); }
  }

  /** A top-level domain of a single letter (one letter after the last '.', possibly followed by the newline `$` allows) is rejected. */
  lemma RejectsOneLetterTld(email: string)
    requires |email| >= 2 && email[|email| - 2] == '.' && IsAsciiLetter(email[|email| - 1])
    ensures !ValidateEmail(email)
    ensures !ValidateEmail(email + "\n")
  {
    ValidateEmailIsMatch(email);
    if MatchesPattern(email) { PatternEndsWithLetters(email); }
    var t := email + "\n";
    ValidateEmailIsMatch(t);
    if MatchesPattern(t) { PatternEndsWithLetters(t); }
    assert t[..|t| - 1] == email;
  }

  /** Python's `$` lets exactly one trailing newline through: a matching address followed by one newline is accepted, by two is not. */
  lemma AcceptsTrailingNewline(s: string)
    requires MatchesPattern(s)
    ensures ValidateEmail(s + "\n")
    ensures !ValidateEmail(s + "\n\n")
  {
    var t := s + "\n";
    assert t[..|t| - 1] == s;
    ValidateEmailIsMatch(t);
    var u := s + "\n\n";
    assert u[..|u| - 1] == t;
    ValidateEmailIsMatch(u);
    NewlineEndNoMatch(u);
    NewlineEndNoMatch(t);
  }
}
