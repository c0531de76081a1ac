/**
  The plain-text body `send_email` derives from the HTML when none is given:
  `<br>` and `</p>` become newlines, then `re.sub('<[^<]+?>', '', ...)`
  removes tags in one left-to-right pass.

  At a '<' the lazy pattern takes the shortest run that has at least one code
  point other than '<' and then a '>'; when there is none the '<' is kept and
  the scan moves on by one code point.
 */
module TagStrip {
  import opened PyText

  /** `<[^<]+?>` matches a prefix of s that ends with the '>' at index j. */
  predicate TagEndsAt(s: string, j: int) {
    2 <= j < |s| && s[0] == '<' && s[j] == '>' && forall k :: 1 <= k < j ==> s[k] != '<'
  }

  /** The length of the lazy match of `<[^<]+?>` at the start of s (the shortest tag), or 0 when it does not match. */
  function TagLength(s: string): (n: nat)
    ensures n <= |s|
  {
    if s == [] || s[0] != '<' then 0 else CloseFrom(s, 1)
  }

  /** The scan for the closing '>' from index k on. */
  function CloseFrom(s: string, k: nat): (n: nat)
    requires 1 <= k <= |s|
    ensures n == 0 || k < n <= |s|
    decreases |s| - k
  {
    if k == |s| || s[k] == '<' then 0
    else if s[k] == '>' && k >= 2 then k + 1
    else CloseFrom(s, k + 1)
  }

  /** The scan from k finds the first tag end, knowing none ends before k. */
  lemma {:induction false} CloseFromFindsTag(s: string, k: nat)
    requires 1 <= k <= |s| && s[0] == '<'
    requires forall i :: 1 <= i < k ==> s[i] != '<'
    requires forall j :: j < k ==> !TagEndsAt(s, j)
    ensures CloseFrom(s, k) == 0 <==> forall j :: !TagEndsAt(s, j)
    ensures CloseFrom(s, k) > 0 ==> TagEndsAt(s, CloseFrom(s, k) - 1) && forall j :: j < CloseFrom(s, k) - 1 ==> !TagEndsAt(s, j)
    decreases |s| - k
  {
    if k == |s| || s[k] == '<' {
    } else if s[k] == '>' && k >= 2 {
      assert TagEndsAt(s, k);
    } else {
      CloseFromFindsTag(s, k + 1);
    }
  }

  /** TagLength is the length of the shortest tag at the start of s, and 0 exactly when no tag starts there. */
  lemma TagLengthIsShortestTag(s: string)
    ensures TagLength(s) == 0 <==> forall j :: !TagEndsAt(s, j)
    ensures TagLength(s) > 0 ==> TagEndsAt(s, TagLength(s) - 1) && forall j :: j < TagLength(s) - 1 ==> !TagEndsAt(s, j)
  {
    if s != [] && s[0] == '<' {
      CloseFromFindsTag(s, 1);
    }
  }

  /** `re.sub('<[^<]+?>', '', s)`: every tag the scan meets is removed, everything else is copied. */
  function StripTags(s: string): (r: string)
    ensures |r| <= |s|
    decreases |s|
  {
    if s == [] then []
    else if s[0] != '<' then [s[0]] + StripTags(s[1..])
    else
      var n := CloseFrom(s, 1);
      if n > 0 then StripTags(s[n..]) else [s[0]] + StripTags(s[1..])
  }

  /** At each position StripTags drops exactly the shortest tag starting there, or keeps one code point. */
  lemma StripTagsStep(s: string)
    requires s != []
    ensures TagLength(s) > 0 ==> StripTags(s) == StripTags(s[TagLength(s)..])
    ensures TagLength(s) == 0 ==> StripTags(s) == [s[0]] + StripTags(s[1..])
  {
  }

  /** No '<' in s. */
  predicate NoOpen(s: string) { forall k :: 0 <= k < |s| ==> s[k] != '<' }

  /** Neither '<' nor '>' in s. */
  predicate NoAngle(s: string) { forall k :: 0 <= k < |s| ==> s[k] != '<' && s[k] != '>' }

  lemma NoOpenConcat(a: string, b: string)
    requires NoOpen(a) && NoOpen(b)
    ensures NoOpen(a + b)
  {
    forall k | 0 <= k < |a + b| ensures (a + b)[k] != '<' {
      if k < |a| { assert (a + b)[k] == a[k]; } else { assert (a + b)[k] == b[k - |a|]; }
    }
  }

  lemma NoAngleConcat(a: string, b: string)
    requires NoAngle(a) && NoAngle(b)
    ensures NoAngle(a + b)
  {
    forall k | 0 <= k < |a + b| ensures (a + b)[k] != '<' && (a + b)[k] != '>' {
      if k < |a| { assert (a + b)[k] == a[k]; } else { assert (a + b)[k] == b[k - |a|]; }
    }
  }

  /** Text without '<' holds no tag and is copied unchanged. */
  lemma {:induction false} StripTagsPlain(s: string)
    requires NoOpen(s)
    ensures StripTags(s) == s
    decreases |s|
  {
    if s != [] {
      StripTagsPlain(s[1..]);
      assert s == [s[0]] + s[1..];
    }
  }

  /** Text without '<' in front of the rest is copied, and the scan goes on with the rest. */
  lemma {:induction false} StripTagsPlainPrefix(a: string, b: string)
    requires NoOpen(a)
    ensures StripTags(a + b) == a + StripTags(b)
    decreases |a|
  {
    if a == [] {
      assert a + b == b;
    } else {
      var x, t := a[0], a[1..];
      var s := a + b;
      StripTagsPlainPrefix(t, b);
      assert s[0] == x && s[1..] == t + b;
      calc {
        StripTags(s);
        [x] + StripTags(t + b);
        [x] + (t + StripTags(b));
        { assert a == [x] + t; }
        a + StripTags(b);
      }
    }
  }

  /** Over code points that are neither '<' nor '>' the scan runs on to the '>' at j. */
  lemma {:induction false} CloseFromReaches(s: string, k: nat, j: nat)
    requires 1 <= k <= j < |s| && 2 <= j && s[j] == '>'
    requires forall i :: k <= i < j ==> s[i] != '<' && s[i] != '>'
    ensures CloseFrom(s, k) == j + 1
    decreases j - k
  {
    if k < j {
      CloseFromReaches(s, k + 1, j);
    }
  }

  /** Over code points that are neither '<' nor '>' the scan runs on to the '<' at j and gives up. */
  lemma {:induction false} CloseFromBlocked(s: string, k: nat, j: nat)
    requires 1 <= k <= j < |s| && s[j] == '<'
    requires forall i :: k <= i < j ==> s[i] != '<' && s[i] != '>'
    ensures CloseFrom(s, k) == 0
    decreases j - k
  {
    if k < j {
      CloseFromBlocked(s, k + 1, j);
    }
  }

  /** A simple tag, '<', a non-empty name without '<' or '>', then '>', is removed whole. */
  lemma StripTagsDropsTag(name: string, rest: string)
    requires name != [] && NoAngle(name)
    ensures StripTags("<" + name + ">" + rest) == StripTags(rest)
  {
    var s := "<" + name + ">" + rest;
    var j := |name| + 1;
    assert s[0] == '<' && s[j] == '>';
    assert forall k :: 1 <= k < j ==> s[k] == name[k - 1];
    CloseFromReaches(s, 1, j);
    assert s[j + 1..] == rest;
  }

  /** A '<' followed by text without '<' or '>' and then a second '<' is kept: no tag starts at it. */
  lemma StripTagsKeepsOpen(x: string, rest: string)
    requires x != [] && NoAngle(x)
    requires rest != [] && rest[0] == '<'
    ensures StripTags("<" + (x + rest)) == "<" + StripTags(x + rest)
  {
    var s := "<" + (x + rest);
    assert forall k :: 1 <= k < |x| + 1 ==> s[k] == x[k - 1];
    assert s[|x| + 1] == rest[0];
    CloseFromBlocked(s, 1, |x| + 1);
    assert s[1..] == x + rest;
  }

  lemma Regroup(x: string, y: string, z: string)
    ensures "<" + x + "<" + y + ">" + z + ">" == "<" + (x + ("<" + y + ">" + (z + ">")))
    ensures "<" + (x + (z + ">")) == "<" + x + z + ">"
    ensures "<" + x + z + ">" == "<" + (x + z) + ">" + ""
  {
  }

  /**
    One pass is not always enough: removing an inner tag can join the text
    around it into a new tag, which the single pass leaves in place and a
    second pass would remove.
   */
  lemma StripTagsSinglePass(x: string, y: string, z: string)
    requires x != [] && y != []
    requires NoAngle(x) && NoAngle(y) && NoAngle(z)
    ensures StripTags("<" + x + "<" + y + ">" + z + ">") == "<" + x + z + ">"
    ensures StripTags("<" + x + z + ">") == ""
  {
    Regroup(x, y, z);
    var tail := z + ">";
    assert NoOpen(tail) by { NoOpenConcat(z, ">"); }
    NoAngleConcat(x, z);
    var inner := "<" + y + ">" + tail;
    StripTagsKeepsOpen(x, inner);
    StripTagsPlainPrefix(x, inner);
    StripTagsDropsTag(y, tail);
    StripTagsPlain(tail);
    StripTagsDropsTag(x + z, "");
  }

  /** The tags the fallback turns into line breaks, and the line break. */
  const BreakTag := "<br>"
  const ParagraphEnd := "</p>"
  const NewLine := "\n"

  /** The plain-text body derived from html (contact_form.py, lines 156-159). */
  function TextFallback(html: string): (text: string) {
    StripTags(Replace(Replace(html, BreakTag, NewLine), ParagraphEnd, NewLine))
  }

  /** The derived text is never longer than the HTML. */
  lemma TextFallbackShorter(html: string)
    ensures |TextFallback(html)| <= |html|
  {
    var a := Replace(html, "<br>", "\n");
    ReplaceShrinks(html, "<br>", "\n");
    ReplaceShrinks(a, "</p>", "\n");
  }

  /** HTML without '<' is its own plain text. */
  lemma TextFallbackPlain(html: string)
    requires NoOpen(html)
    ensures TextFallback(html) == html
  {
    ReplaceAbsent(html, "<br>", "\n");
    ReplaceAbsent(html, "</p>", "\n");
    StripTagsPlain(html);
  }

  /** Line-break tags become newlines before any tag is removed. */
  lemma TextFallbackLineBreaks(a: string, b: string)
    requires NoOpen(a) && NoOpen(b)
    ensures TextFallback(a + "<br>" + b + "</p>") == a + "\n" + b + "\n"
  {
    var t := a + "\n" + b;
    BreakReplaced(a, b);
    PReplaced(t);
    assert NoOpen(t + "\n") by {
      NoOpenConcat(a, "\n");
      NoOpenConcat(a + "\n", b);
      NoOpenConcat(t, "\n");
    }
    StripTagsPlain(t + "\n");
  }

  lemma RegroupBreak(a: string, b: string)
    ensures a + "<br>" + b + "</p>" == a + ("<br>" + (b + "</p>"))
    ensures a + ("\n" + (b + "</p>")) == a + "\n" + b + "</p>"
  {
  }

  /** The first replacement: the `<br>` becomes a newline and the `</p>` is kept. */
  lemma BreakReplaced(a: string, b: string)
    requires NoOpen(a) && NoOpen(b)
    ensures Replace(a + "<br>" + b + "</p>", "<br>", "\n") == a + "\n" + b + "</p>"
  {
    RegroupBreak(a, b);
    PNotBreak();
    ReplacePlainPrefix(b, "</p>", "<br>", "\n");
    ReplaceAtStart("<br>", b + "</p>", "\n");
    ReplacePlainPrefix(a, "<br>" + (b + "</p>"), "<br>", "\n");
  }

  /** `</p>` holds no `<br>`. */
  lemma PNotBreak()
    ensures Replace("</p>", "<br>", "\n") == "</p>"
  {
    assert "</p>"[..4] != "<br>" by { assert "</p>"[1] != "<br>"[1]; }
    assert "</p>"[1..] == "/p>";
    ReplaceAbsent("/p>", "<br>", "\n");
  }

  /** The second replacement: the trailing `</p>` becomes a newline. */
  lemma PReplaced(t: string)
    requires NoOpen(t)
    ensures Replace(t + "</p>", "</p>", "\n") == t + "\n"
  {
    ReplacePlainPrefix(t, "</p>", "</p>", "\n");
    ReplaceAtStart("</p>", "", "\n");
    assert "</p>" + "" == "</p>";
  }
}
