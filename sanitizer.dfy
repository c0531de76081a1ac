/**
  `sanitize_input`: truncate to `max_length` code points, then five
  `str.replace` calls for `&`, `<`, `>`, `"` and `'`, in that order.

  `Escape` is the per-code-point escaping those five calls amount to, and
  `Unescape` decodes the five entities again; the method below runs the
  replacements as the source does and is proved equal to `Escape` of the
  truncated text.
 */
module Sanitizer {
  import opened PyText

  /** The entity a code point turns into, or the code point itself. */
  function EscapeChar(c: char): string {
    if c == '&' then "&amp;"
    else if c == '<' then "&lt;"
    else if c == '>' then "&gt;"
    else if c == '"' then "&quot;"
    else if c == '\'' then "&#x27;"
    else [c]
  }

  /** One of the five code points the sanitizer escapes. */
  predicate IsSpecial(c: char) {
    c == '&' || c == '<' || c == '>' || c == '"' || c == '\''
  }

  /** Every code point escaped on its own. */
  function Escape(s: string): (r: string)
    ensures |r| >= |s|
    decreases |s|
  {
    if s == [] then [] else EscapeChar(s[0]) + Escape(s[1..])
  }

  /** The five `replace` calls of lines 97-101, in their order. */
  function ReplaceChain(s: string): string {
    var s1 := Replace(s, "&", "&amp;");
    var s2 := Replace(s1, "<", "&lt;");
    var s3 := Replace(s2, ">", "&gt;");
    var s4 := Replace(s3, "\"", "&quot;");
    Replace(s4, "'", "&#x27;")
  }

  /** Decodes the five entities, left to right; every other code point is kept. */
  function Unescape(s: string): (r: string)
    decreases |s|
  {
    if s == [] then []
    else if "&amp;" <= s then "&" + Unescape(s[5..])
    else if "&lt;" <= s then "<" + Unescape(s[4..])
    else if "&gt;" <= s then ">" + Unescape(s[4..])
    else if "&quot;" <= s then "\"" + Unescape(s[6..])
    else if "&#x27;" <= s then "'" + Unescape(s[6..])
    else [s[0]] + Unescape(s[1..])
  }

  /** An entity starts at index i of s. */
  predicate EntityAt(s: string, i: nat)
    requires i <= |s|
  {
    var t := s[i..];
    "&amp;" <= t || "&lt;" <= t || "&gt;" <= t || "&quot;" <= t || "&#x27;" <= t
  }

  /** Safe for HTML: no `<`, `>`, `"` or `'`, and every `&` begins one of the five entities. */
  predicate Escaped(s: string) {
    forall i :: 0 <= i < |s| ==> (s[i] != '<' && s[i] != '>' && s[i] != '"' && s[i] != '\'') && (s[i] == '&' ==> EntityAt(s, i))
  }

  // ---------------------------------------------------------------------------
  // The replacement chain is the per-code-point escape
  // ---------------------------------------------------------------------------

  lemma ReplaceOneChar(c: char, x: char, rep: string)
    ensures Replace([c], [x], rep) == if c == x then rep else [c]
  {
    ReplaceCharCons(c, [], x, rep);
    assert [c] + [] == [c];
  }

  lemma ReplaceChainConcat(a: string, b: string)
    ensures ReplaceChain(a + b) == ReplaceChain(a) + ReplaceChain(b)
  {
    var a1, b1 := Replace(a, "&", "&amp;"), Replace(b, "&", "&amp;");
    ReplaceCharConcat(a, b, '&', "&amp;");
    var a2, b2 := Replace(a1, "<", "&lt;"), Replace(b1, "<", "&lt;");
    ReplaceCharConcat(a1, b1, '<', "&lt;");
    var a3, b3 := Replace(a2, ">", "&gt;"), Replace(b2, ">", "&gt;");
    ReplaceCharConcat(a2, b2, '>', "&gt;");
    var a4, b4 := Replace(a3, "\"", "&quot;"), Replace(b3, "\"", "&quot;");
    ReplaceCharConcat(a3, b3, '"', "&quot;");
    ReplaceCharConcat(a4, b4, '\'', "&#x27;");
  }

  /** On one code point the chain produces its entity: `&` goes first, and no later entity holds a later target. */
  lemma ReplaceChainChar(c: char)
    ensures ReplaceChain([c]) == EscapeChar(c)
  {
    ReplaceOneChar(c, '&', "&amp;");
    if c == '&' {
      LaterStepsKeep("&amp;", 2);
    } else {
      ReplaceOneChar(c, '<', "&lt;");
      if c == '<' {
        LaterStepsKeep("&lt;", 3);
      } else {
        ReplaceOneChar(c, '>', "&gt;");
        if c == '>' {
          LaterStepsKeep("&gt;", 4);
        } else {
          ReplaceOneChar(c, '"', "&quot;");
          if c == '"' {
            LaterStepsKeep("&quot;", 5);
          } else {
            ReplaceOneChar(c, '\'', "&#x27;");
          }
        }
      }
    }
  }

  /** The chain's steps from step `from` on (1 `&`, 2 `<`, 3 `>`, 4 `"`, 5 `'`). */
  function StepsFrom(s: string, from: nat): string {
    var s2 := if from <= 2 then Replace(s, "<", "&lt;") else s;
    var s3 := if from <= 3 then Replace(s2, ">", "&gt;") else s2;
    var s4 := if from <= 4 then Replace(s3, "\"", "&quot;") else s3;
    if from <= 5 then Replace(s4, "'", "&#x27;") else s4
  }

  /** An entity holds none of the later targets, so the remaining steps keep it. */
  lemma LaterStepsKeep(e: string, from: nat)
    requires 2 <= from
    requires forall k :: 0 <= k < |e| ==> e[k] != '<' && e[k] != '>' && e[k] != '"' && e[k] != '\''
    ensures StepsFrom(e, from) == e
  {
    ReplaceAbsent(e, "<", "&lt;");
    ReplaceAbsent(e, ">", "&gt;");
    ReplaceAbsent(e, "\"", "&quot;");
    ReplaceAbsent(e, "'", "&#x27;");
  }

  /** The sequential `replace` chain equals escaping each code point on its own. */
  lemma {:induction false} ReplaceChainIsEscape(s: string)
    ensures ReplaceChain(s) == Escape(s)
    decreases |s|
  {
    if s == [] {
      assert ReplaceChain(s) == [];
    } else {
      assert s == [s[0]] + s[1..];
      ReplaceChainConcat([s[0]], s[1..]);
      ReplaceChainChar(s[0]);
      ReplaceChainIsEscape(s[1..]);
    }
  }

  // ---------------------------------------------------------------------------
  // What the escape guarantees
  // ---------------------------------------------------------------------------

  /** A string that differs from p at index i does not start with p. */
  lemma NotPrefixAt(p: string, s: string, i: nat)
    requires i < |p| && i < |s| && p[i] != s[i]
    ensures !(p <= s)
  {
  }

  /** Every entity starts with '&' followed by a code point that tells the five apart. */
  lemma UnescapeEntity(e: string, c: char, t: string)
    requires IsSpecial(c) && e == EscapeChar(c)
    ensures Unescape(e + t) == [c] + Unescape(t)
  {
    var s := e + t;
    assert s[..|e|] == e && s[|e|..] == t;
    assert s[1] == e[1];
    if c != '&' { NotPrefixAt("&amp;", s, 1); }
    if c != '&' && c != '<' { NotPrefixAt("&lt;", s, 1); }
    if c != '&' && c != '<' && c != '>' { NotPrefixAt("&gt;", s, 1); }
    if c == '\'' { NotPrefixAt("&quot;", s, 1); }
  }

  lemma UnescapeCons(c: char, t: string)
    ensures Unescape(EscapeChar(c) + t) == [c] + Unescape(t)
  {
    var s := EscapeChar(c) + t;
    if IsSpecial(c) {
      UnescapeEntity(EscapeChar(c), c, t);
    } else {
      assert s[0] == c && s[1..] == t;
      NotPrefixAt("&amp;", s, 0);
      NotPrefixAt("&lt;", s, 0);
      NotPrefixAt("&gt;", s, 0);
      NotPrefixAt("&quot;", s, 0);
      NotPrefixAt("&#x27;", s, 0);
    }
  }

  /** Decoding the entities gives back exactly the text that was escaped. */
  lemma {:induction false} UnescapeEscape(s: string)
    ensures Unescape(Escape(s)) == s
    decreases |s|
  {
    if s != [] {
      UnescapeCons(s[0], Escape(s[1..]));
      UnescapeEscape(s[1..]);
    }
  }

  lemma EscapedConcat(a: string, b: string)
    requires Escaped(a) && Escaped(b)
    ensures Escaped(a + b)
  {
    var s := a + b;
    forall i | 0 <= i < |s| && s[i] == '&' ensures EntityAt(s, i) {
      if i < |a| {
        assert a[i] == '&';
        assert s[i..] == a[i..] + b;
      } else {
        assert b[i - |a|] == '&';
        assert s[i..] == b[i - |a|..];
      }
    }
  }

  lemma EscapeCharEscaped(c: char)
    ensures Escaped(EscapeChar(c))
  {
    var e := EscapeChar(c);
    if IsSpecial(c) {
      assert e[0] == '&' && e[0..] == e;
      assert forall i :: 1 <= i < |e| ==> e[i] != '&' && !IsSpecial(e[i]);
    }
  }

  /** Escaped text holds no markup characters, and each `&` in it starts an entity. */
  lemma {:induction false} EscapeIsEscaped(s: string)
    ensures Escaped(Escape(s))
    decreases |s|
  {
    if s != [] {
      EscapeCharEscaped(s[0]);
      EscapeIsEscaped(s[1..]);
      EscapedConcat(EscapeChar(s[0]), Escape(s[1..]));
    }
  }

  /** Escaping works piece by piece. */
  lemma {:induction false} EscapeConcat(a: string, b: string)
    ensures Escape(a + b) == Escape(a) + Escape(b)
    decreases |a|
  {
    if a == [] {
      assert a + b == b;
    } else {
      assert (a + b)[0] == a[0] && (a + b)[1..] == a[1..] + b;
      EscapeConcat(a[1..], b);
    }
  }

  /** Text with none of the five code points is left as it is. */
  lemma {:induction false} EscapePlain(s: string)
    requires forall i :: 0 <= i < |s| ==> !IsSpecial(s[i])
    ensures Escape(s) == s
    decreases |s|
  {
    if s != [] {
      EscapePlain(s[1..]);
      assert s == [s[0]] + s[1..];
    }
  }

  /** Escaping is not idempotent: an entity is escaped again. */
  lemma EscapeTwice()
    ensures Escape("&amp;") == "&amp;amp;"
    ensures Escape(Escape("&")) != Escape("&")
  {
    var e := "&amp;";
    assert e[0] == '&' && e[1..] == "amp;";
    EscapePlain("amp;");
    assert "&"[1..] == [];
  }

  // ---------------------------------------------------------------------------
  // sanitize_input
  // ---------------------------------------------------------------------------

  /** `sanitize_input(text, max_length)` (contact_form.py, lines 79-103). */
  method SanitizeInput(text: string, maxLength: int) returns (r: string)
    ensures r == Escape(Prefix(text, maxLength))
    ensures Escaped(r) && Unescape(r) == Prefix(text, maxLength)
  {
    if text == [] {
      return [];
    }
    var t := Prefix(text, maxLength);
    ghost var truncated := t;
    t := Replace(t, "&", "&amp;");
    t := Replace(t, "<", "&lt;");
    t := Replace(t, ">", "&gt;");
    t := Replace(t, "\"", "&quot;");
    t := Replace(t, "'", "&#x27;");
    assert t == ReplaceChain(truncated);
    ReplaceChainIsEscape(truncated);
    EscapeIsEscaped(truncated);
    UnescapeEscape(truncated);
    r := t;
  }

  /** Truncation comes before escaping: the output is at least min(len(text), n) long and may be longer than n. */
  lemma SanitizedLength(text: string, n: nat)
    ensures |Escape(Prefix(text, n))| >= (if |text| < n then |text| else n)
    ensures |Escape(Prefix("&", 1))| == 5
  {
    assert Prefix("&", 1) == "&";
    assert Escape("&") == "&amp;" + Escape([]);
  }
}
