/** The `sanitize` helper of the form backend: a non-string becomes the empty
    string; a string has every tag-like span removed, exactly as a global
    replace of the pattern `<[^>]*>?` removes it, and is then trimmed as
    JavaScript's `String.prototype.trim` trims. */
module Sanitizer {
  import opened JsValues

  // ---------------------------------------------------------------------
  // Tag stripping: the global replace of /<[^>]*>?/gm by ''
  // ---------------------------------------------------------------------

  /** The rest of a tag whose `<` has just been consumed: `[^>]*` eats every
      character up to the first `>` (another `<` and line breaks included),
      and `>?` eats that `>` when there is one. What is returned is the text
      after the tag, so it is empty when the tag is never closed. */
  function SkipTag(s: string): (r: string)
    ensures |r| <= |s| && r == s[|s| - |r|..]
    ensures '>' !in s ==> r == []
    ensures '>' in s ==> |r| < |s| && s[|s| - |r| - 1] == '>' && '>' !in s[..|s| - |r| - 1]
  {
    if s == [] then []
    else if s[0] == '>' then s[1..]
    else
      var r := SkipTag(s[1..]);
      assert s[1..][|s| - 1 - |r|..] == s[|s| - |r|..];
      assert '>' in s[1..] ==> s[..|s| - |r| - 1] == [s[0]] + s[1..][..|s| - 1 - |r| - 1];
      r
  }

  /** Removes every match of `<[^>]*>?`, scanning left to right as a global
      replace does: a `<` starts a removed span, any other character is
      copied. The result never contains `<` and is never longer than the
      input. */
  function StripTags(s: string): (r: string)
    ensures '<' !in r
    ensures |r| <= |s|
    decreases |s|
  {
    if s == [] then []
    else if s[0] == '<' then
      StripTags(SkipTag(s[1..]))
    else
      [s[0]] + StripTags(s[1..])
  }

  /** Stripping only removes: no character appears in the result more
      often than in the input. */
  lemma {:induction false} StripTagsSubmultiset(s: string)
    ensures multiset(StripTags(s)) <= multiset(s)
    decreases |s|
  {
    if s == [] {
    } else if s[0] == '<' {
      var rest := SkipTag(s[1..]);
      assert s == s[..|s| - |rest|] + rest;
      StripTagsSubmultiset(rest);
    } else {
      assert s == [s[0]] + s[1..];
      StripTagsSubmultiset(s[1..]);
    }
  }

  /** Text without a `<` passes through unchanged, a stray `>` included. */
  lemma {:induction false} StripTagsNoTag(s: string)
    requires '<' !in s
    ensures StripTags(s) == s
  {
    if s != [] {
      StripTagsNoTag(s[1..]);
    }
  }

  /** A prefix without `<` is copied and the rest is stripped on its own. */
  lemma {:induction false} StripTagsPrefix(a: string, b: string)
    requires '<' !in a
    ensures StripTags(a + b) == a + StripTags(b)
  {
    if a != [] {
      var s := a + b;
      assert s[0] == a[0] != '<' && s[1..] == a[1..] + b;
      assert StripTags(s) == [a[0]] + StripTags(a[1..] + b);
      StripTagsPrefix(a[1..], b);
      assert [a[0]] + (a[1..] + StripTags(b)) == ([a[0]] + a[1..]) + StripTags(b);
      assert [a[0]] + a[1..] == a;
    } else {
      assert a + b == b;
    }
  }

  /** A skipped tag ends at its first `>`. */
  lemma {:induction false} SkipTagClosed(t: string, b: string)
    requires '>' !in t
    ensures SkipTag(t + ['>'] + b) == b
  {
    if t != [] {
      assert (t + ['>'] + b)[1..] == t[1..] + ['>'] + b;
      SkipTagClosed(t[1..], b);
    }
  }

  /** A closed tag, `<` then no `>` then `>`, is removed whole; text that
      follows it is stripped on its own. */
  lemma StripTagsClosedTag(t: string, b: string)
    requires '>' !in t
    ensures StripTags(['<'] + t + ['>'] + b) == StripTags(b)
  {
    var s := ['<'] + t + ['>'] + b;
    assert s[1..] == t + ['>'] + b;
    SkipTagClosed(t, b);
  }

  /** An unclosed `<` removes everything after it. */
  lemma StripTagsUnclosedTag(t: string)
    requires '>' !in t
    ensures StripTags(['<'] + t) == []
  {
    assert (['<'] + t)[1..] == t;
  }

  /** Stripping twice strips nothing more. */
  lemma {:induction false} StripTagsIdempotent(s: string)
    ensures StripTags(StripTags(s)) == StripTags(s)
  {
    StripTagsNoTag(StripTags(s));
  }

  // ---------------------------------------------------------------------
  // Trimming: String.prototype.trim
  // ---------------------------------------------------------------------

  /** The code points of Unicode category Zs (space separators). */
  const SpaceSeparators: set<int> :=
    {0x20, 0xA0, 0x1680, 0x2000, 0x2001, 0x2002, 0x2003, 0x2004, 0x2005,
     0x2006, 0x2007, 0x2008, 0x2009, 0x200A, 0x202F, 0x205F, 0x3000}

  /** ECMAScript WhiteSpace: tab, vertical tab, form feed, byte order mark
      and every space separator. */
  const WhiteSpace: set<int> := {0x09, 0x0B, 0x0C, 0xFEFF} + SpaceSeparators

  /** ECMAScript LineTerminator: line feed, carriage return, line separator
      and paragraph separator. */
  const LineTerminators: set<int> := {0x0A, 0x0D, 0x2028, 0x2029}

  /** The characters `trim` removes: the WhiteSpace and LineTerminator
      code points, tested one range at a time. Lemma
      `TrimmableIsWhiteSpaceOrLineTerminator` proves this test equal to
      membership in `WhiteSpace + LineTerminators`. */
  predicate IsTrimmable(c: char)
  {
    var n := c as int;
    n == 0x09 || n == 0x0A || n == 0x0B || n == 0x0C || n == 0x0D ||
    n == 0x20 || n == 0xA0 || n == 0x1680 ||
    (0x2000 <= n <= 0x200A) ||
    n == 0x2028 || n == 0x2029 || n == 0x202F || n == 0x205F ||
    n == 0x3000 || n == 0xFEFF
  }

  /** `IsTrimmable` accepts exactly the WhiteSpace and LineTerminator code
      points, no more and no fewer. */
  lemma TrimmableIsWhiteSpaceOrLineTerminator(c: char)
    ensures IsTrimmable(c) <==> c as int in WhiteSpace + LineTerminators
  {
  }

  predicate AllTrimmable(s: string)
  {
    forall k :: 0 <= k < |s| ==> IsTrimmable(s[k])
  }

  /** Neither the first nor the last character is one `trim` removes. */
  predicate NoEdgeTrimmable(s: string)
  {
    s == [] || (!IsTrimmable(s[0]) && !IsTrimmable(s[|s| - 1]))
  }

  /** Drops the leading trimmable characters: the result is the suffix of
      `s` that starts at its first character `trim` keeps. */
  function TrimStart(s: string): (r: string)
    ensures |r| <= |s| && r == s[|s| - |r|..]
    ensures AllTrimmable(s[..|s| - |r|])
    ensures r == [] || !IsTrimmable(r[0])
  {
    if s == [] || !IsTrimmable(s[0]) then s
    else TrimStart(s[1..])
  }

  /** Drops the trailing trimmable characters: the result is the prefix of
      `s` that ends at its last character `trim` keeps. */
  function TrimEnd(s: string): (r: string)
    ensures |r| <= |s| && r == s[..|r|]
    ensures AllTrimmable(s[|r|..])
    ensures r == [] || !IsTrimmable(r[|r| - 1])
  {
    if s == [] || !IsTrimmable(s[|s| - 1]) then s
    else TrimEnd(s[..|s| - 1])
  }

  /** `String.prototype.trim`. */
  function Trim(s: string): (r: string)
    ensures NoEdgeTrimmable(r)
    ensures |r| <= |s|
  {
    TrimEnd(TrimStart(s))
  }

  /** The trimmed text is a slice of the input with only trimmable
      characters on either side of it. */
  lemma TrimSlice(s: string) returns (i: nat)
    ensures i + |Trim(s)| <= |s| && Trim(s) == s[i..i + |Trim(s)|]
    ensures AllTrimmable(s[..i]) && AllTrimmable(s[i + |Trim(s)|..])
  {
    var t := TrimStart(s);
    i := |s| - |t|;
    assert t == s[i..] && AllTrimmable(s[..i]);
    var r := TrimEnd(t);
    assert Trim(s) == r;
    assert r == s[i..i + |r|] by {
      assert r == t[..|r|];
    }
    assert AllTrimmable(s[i + |r|..]) by {
      assert s[i + |r|..] == t[|r|..];
      assert AllTrimmable(t[|r|..]);
    }
  }

  /** `TrimStart` stops at the first character `trim` keeps. */
  lemma {:induction false} TrimStartAt(s: string, i: nat)
    requires i <= |s| && AllTrimmable(s[..i])
    requires i == |s| || !IsTrimmable(s[i])
    ensures TrimStart(s) == s[i..]
  {
    if i > 0 {
      assert s[..i][0] == s[0];
      assert s[1..][..i - 1] == s[..i][1..];
      TrimStartAt(s[1..], i - 1);
    }
  }

  /** `TrimEnd` stops after the last character `trim` keeps. */
  lemma {:induction false} TrimEndAt(s: string, j: nat)
    requires j <= |s| && AllTrimmable(s[j..])
    requires j == 0 || !IsTrimmable(s[j - 1])
    ensures TrimEnd(s) == s[..j]
  {
    if j < |s| {
      assert s[j..][|s| - 1 - j] == s[|s| - 1];
      assert s[..|s| - 1][j..] == s[j..][..|s| - 1 - j];
      TrimEndAt(s[..|s| - 1], j);
      assert s[..|s| - 1][..j] == s[..j];
    }
  }

  /** A string made only of trimmable characters trims to nothing. */
  lemma TrimAllTrimmable(s: string, i: nat)
    requires i <= |s| && AllTrimmable(s[..i]) && AllTrimmable(s[i..])
    ensures Trim(s) == []
  {
    forall k | 0 <= k < |s| ensures IsTrimmable(s[k]) {
      if k < i { assert s[..i][k] == s[k]; } else { assert s[i..][k - i] == s[k]; }
    }
    assert s[..|s|] == s;
    TrimStartAt(s, |s|);
  }

  /** `trim` is the only way to cut `s` into trimmable text, a middle
      without trimmable edges, and trimmable text: whenever `s` splits so,
      `Trim(s)` is that middle. */
  lemma TrimUnique(s: string, i: nat, j: nat)
    requires i <= j <= |s|
    requires AllTrimmable(s[..i]) && AllTrimmable(s[j..])
    requires NoEdgeTrimmable(s[i..j])
    ensures Trim(s) == s[i..j]
  {
    if i == j {
      TrimAllTrimmable(s, i);
    } else {
      assert s[i] == s[i..j][0];
      TrimStartAt(s, i);
      TrimEndOfSuffix(s, i, j);
    }
  }

  /** Trimming the end of the suffix that starts at `i` stops at `j`. */
  lemma TrimEndOfSuffix(s: string, i: nat, j: nat)
    requires i < j <= |s|
    requires AllTrimmable(s[j..]) && !IsTrimmable(s[j - 1])
    ensures TrimEnd(s[i..]) == s[i..j]
  {
    var t := s[i..];
    assert t[j - i..] == s[j..];
    assert t[j - i - 1] == s[j - 1];
    TrimEndAt(t, j - i);
    assert t[..j - i] == s[i..j];
  }

  /** Text without trimmable edges is left as it is. */
  lemma {:induction false} TrimNoEdge(s: string)
    requires NoEdgeTrimmable(s)
    ensures Trim(s) == s
  {
    TrimUnique(s, 0, |s|);
  }

  /** Trimming twice trims nothing more. */
  lemma {:induction false} TrimIdempotent(s: string)
    ensures Trim(Trim(s)) == Trim(s)
  {
    TrimNoEdge(Trim(s));
  }

  // ---------------------------------------------------------------------
  // sanitize
  // ---------------------------------------------------------------------

  /** `sanitize(input)`: the empty string for anything that is not a
      string, otherwise the string with its tags stripped and then trimmed. */
  function Sanitize(input: JsValue): (r: string)
    ensures !input.Str? ==> r == []
    ensures '<' !in r
    ensures NoEdgeTrimmable(r)
    ensures input.Str? ==> |r| <= |input.s|
  {
    match input
    case Str(s) =>
      var stripped := StripTags(s);
      TrimCharsFrom(stripped);
      Trim(stripped)
    case _ => []
  }

  /** Every character of `Trim(s)` is a character of `s`. */
  lemma {:induction false} TrimCharsFrom(s: string)
    ensures forall c :: c in Trim(s) ==> c in s
  {
    var i := TrimSlice(s);
    forall c | c in Trim(s) ensures c in s {
      var k :| 0 <= k < |Trim(s)| && Trim(s)[k] == c;
      assert s[i + k] == c;
    }
  }

  /** Sanitizing what `sanitize` returned gives it back unchanged. */
  lemma SanitizeIdempotent(input: JsValue)
    ensures Sanitize(Str(Sanitize(input))) == Sanitize(input)
  {
    var r := Sanitize(input);
    SanitizeString(r);
    StripTagsNoTag(r);
    TrimNoEdge(r);
  }

  /** A string without `<` is changed only by trimming. */
  lemma SanitizeNoTag(s: string)
    requires '<' !in s
    ensures Sanitize(Str(s)) == Trim(s)
  {
    SanitizeString(s);
    StripTagsNoTag(s);
  }

  /** Text before the first `<` survives and a closed tag vanishes. */
  lemma SanitizeClosedTag(a: string, t: string, b: string)
    requires '<' !in a && '>' !in t
    ensures Sanitize(Str(a + (['<'] + t + ['>'] + b))) == Trim(a + StripTags(b))
  {
    var tag := ['<'] + t + ['>'] + b;
    StripTagsPrefix(a, tag);
    StripTagsClosedTag(t, b);
    SanitizeString(a + tag);
  }

  /** `sanitize` on a string trims what stripping leaves. */
  lemma SanitizeString(s: string)
    ensures Sanitize(Str(s)) == Trim(StripTags(s))
  {
  }

  /** An unclosed `<` takes the rest of the string with it. */
  lemma SanitizeUnclosedTag(a: string, t: string)
    requires '<' !in a && '>' !in t
    ensures Sanitize(Str(a + (['<'] + t))) == Trim(a)
  {
    var tag := ['<'] + t;
    StripTagsPrefix(a, tag);
    StripTagsUnclosedTag(t);
    assert a + [] == a;
    SanitizeString(a + tag);
  }

  /** Text between an opening and a closing tag, as in `<b>Ana</b>`, is
      all that is left of them, trimmed. */
  lemma SanitizeWrapped(open: string, text: string, close: string)
    requires '>' !in open && '<' !in text && '>' !in close
    ensures Sanitize(Str(['<'] + open + ['>'] + (text + (['<'] + close + ['>'])))) == Trim(text)
  {
    var closing := ['<'] + close + ['>'];
    StripTagsClosedTag(open, text + closing);
    StripTagsPrefix(text, closing);
    assert closing == ['<'] + close + ['>'] + [];
    StripTagsClosedTag(close, []);
    assert text + [] == text;
    SanitizeString(['<'] + open + ['>'] + (text + closing));
  }
}
