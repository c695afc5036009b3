/** "Most specific pattern first": what choosing the longest resource pattern means, for patterns that
    are a literal text, optionally followed by `*`, and for exact patterns among any others. */
module Specificity {
  import opened Wire
  import opened Policies

  /** Case-sensitive globbing with `*` and `?`. Patterns with `[` are outside this definition. */
  predicate Glob(text: string, pattern: string)
    decreases |text| + |pattern|
  {
    if pattern == "" then text == ""
    else if pattern[0] == '*' then Glob(text, pattern[1..]) || (text != "" && Glob(text[1..], pattern))
    else text != "" && (pattern[0] == '?' || pattern[0] == text[0]) && Glob(text[1..], pattern[1..])
  }

  /** The matcher in use is `fnmatchcase`, of which only the bracket-free part is spelled out. */
  ghost predicate Globbing(glob: Matcher) {
    forall text: string, pattern: string :: '[' !in pattern ==> glob(text, pattern) == Glob(text, pattern)
  }

  predicate Literal(s: string) {
    '*' !in s && '?' !in s && '[' !in s
  }

  /** A literal followed by `*`. */
  predicate Prefix(pattern: string) {
    pattern != "" && pattern[|pattern| - 1] == '*' && Literal(Stem(pattern))
  }

  function Stem(pattern: string): string
    requires pattern != ""
  {
    pattern[..|pattern| - 1]
  }

  predicate AllPrefixes(t: seq<Row>) {
    forall i :: 0 <= i < |t| ==> Prefix(t[i].key)
  }

  predicate AllSimple(t: seq<Row>) {
    forall i :: 0 <= i < |t| ==> Prefix(t[i].key) || Literal(t[i].key)
  }

  lemma {:induction false} LiteralMatches(text: string, pattern: string)
    requires Literal(pattern)
    ensures Glob(text, pattern) <==> text == pattern
  {
    if pattern != "" && text != "" {
      LiteralMatches(text[1..], pattern[1..]);
      assert text == [text[0]] + text[1..] && pattern == [pattern[0]] + pattern[1..];
    }
  }

  lemma {:induction false} StarMatches(text: string)
    ensures Glob(text, "*")
  {
    if text != "" {
      StarMatches(text[1..]);
    }
  }

  lemma {:induction false} PrefixMatches(text: string, pattern: string)
    requires Prefix(pattern)
    ensures Glob(text, pattern) <==> Stem(pattern) <= text
  {
    if |pattern| == 1 {
      assert pattern == "*";
      StarMatches(text);
    } else {
      assert pattern[0] == Stem(pattern)[0];
      assert Stem(pattern[1..]) == Stem(pattern)[1..];
      if text != "" {
        PrefixMatches(text[1..], pattern[1..]);
        assert Stem(pattern) <= text <==> pattern[0] == text[0] && Stem(pattern)[1..] <= text[1..];
      }
    }
  }

  /** `[i]` names a row matching `uri` whose matches all match every other row matching `uri`. */
  ghost predicate MostSpecific(t: seq<Row>, glob: Matcher, uri: string, i: nat) {
    && i < |t|
    && glob(uri, t[i].key)
    && forall j, text :: 0 <= j < |t| && glob(uri, t[j].key) && glob(text, t[i].key) ==> glob(text, t[j].key)
  }

  lemma Matches(glob: Matcher, text: string, pattern: string)
    requires Globbing(glob)
    ensures Prefix(pattern) ==> (glob(text, pattern) <==> Stem(pattern) <= text)
    ensures Literal(pattern) ==> (glob(text, pattern) <==> text == pattern)
  {
    if Prefix(pattern) {
      PrefixMatches(text, pattern);
      assert '[' !in pattern by {
        assert pattern == Stem(pattern) + ['*'];
      }
    }
    if Literal(pattern) {
      LiteralMatches(text, pattern);
    }
  }

  lemma LongerPrefixIsNarrower(glob: Matcher, uri: string, text: string, longer: string, shorter: string)
    requires Globbing(glob) && Prefix(longer) && Prefix(shorter)
    requires |shorter| <= |longer|
    requires glob(uri, longer) && glob(uri, shorter) && glob(text, longer)
    ensures glob(text, shorter)
  {
    Matches(glob, uri, longer);
    Matches(glob, uri, shorter);
    Matches(glob, text, longer);
    Matches(glob, text, shorter);
    assert Stem(shorter) == uri[..|shorter| - 1] && Stem(longer) == uri[..|longer| - 1];
  }

  lemma SameLengthPrefixesAreEqual(glob: Matcher, uri: string, p: string, q: string)
    requires Globbing(glob) && Prefix(p) && Prefix(q) && |p| == |q|
    requires glob(uri, p) && glob(uri, q)
    ensures p == q
  {
    Matches(glob, uri, p);
    Matches(glob, uri, q);
    assert p == Stem(p) + ['*'] && q == Stem(q) + ['*'];
  }

  /** When every pattern is a literal prefix with a trailing `*`, the chosen rule's matches lie
      within those of every other rule that matches, and document order does not matter. */
  lemma LongestPrefixIsMostSpecific(t: Table, u: Table, glob: Matcher, uri: string, i: nat)
    requires Globbing(glob) && AllPrefixes(t) && Selected(t, glob, uri, i)
    ensures MostSpecific(t, glob, uri, i) && SelectRule(t, glob, uri) == Some(t[i].rule)
    ensures SameRows(t, u) ==> SelectRule(u, glob, uri) == Some(t[i].rule)
  {
    SelectsEarliestLongest(t, glob, uri);
    forall j, text | 0 <= j < |t| && glob(uri, t[j].key) && glob(text, t[i].key) ensures glob(text, t[j].key) {
      LongerPrefixIsNarrower(glob, uri, text, t[i].key, t[j].key);
    }
    forall a, b | 0 <= a < b < |t| && glob(uri, t[a].key) && glob(uri, t[b].key) ensures |t[a].key| != |t[b].key| {
      if |t[a].key| == |t[b].key| {
        SameLengthPrefixesAreEqual(glob, uri, t[a].key, t[b].key);
      }
    }
    if SameRows(t, u) {
      SelectionIgnoresOrder(t, u, glob, uri);
    }
  }

  /** Row `e` is the exact pattern for `uri`, and a wildcard pattern is tried before it: its own
      starred form, or the prefix one character shorter when that stands earlier in the document. */
  predicate Shadowed(t: seq<Row>, uri: string, e: nat, s: nat) {
    && e < |t| && s < |t|
    && t[e].key == uri && Literal(uri)
    && (t[s].key == uri + "*" || (uri != "" && t[s].key == Stem(uri) + "*" && s < e))
  }

  lemma ShadowWins(t: Table, glob: Matcher, uri: string, i: nat, e: nat, s: nat)
    requires Globbing(glob) && AllSimple(t) && Selected(t, glob, uri, i) && Shadowed(t, uri, e, s)
    ensures !MostSpecific(t, glob, uri, i)
  {
    var text := uri + "x";
    Matches(glob, uri, t[e].key);
    Matches(glob, text, t[e].key);
    assert Stem(uri + "*") == uri;
    assert uri != "" ==> Stem(Stem(uri) + "*") == Stem(uri);
    Matches(glob, uri, t[s].key);
    Matches(glob, uri, t[i].key);
    Matches(glob, text, t[i].key);
    assert t[i].key != uri;
    assert glob(text, t[i].key) && !glob(text, t[e].key);
  }

  lemma UnshadowedIsMostSpecific(t: Table, glob: Matcher, uri: string, i: nat)
    requires Globbing(glob) && AllSimple(t) && Selected(t, glob, uri, i)
    requires forall e, s :: !Shadowed(t, uri, e, s)
    ensures MostSpecific(t, glob, uri, i)
  {
    Matches(glob, uri, t[i].key);
    forall j, text | 0 <= j < |t| && glob(uri, t[j].key) && glob(text, t[i].key) ensures glob(text, t[j].key) {
      Matches(glob, uri, t[j].key);
      if Prefix(t[i].key) {
        if Literal(t[j].key) {
          ExactLosesOnlyWhenShadowed(t, glob, uri, i, j);
        } else {
          LongerPrefixIsNarrower(glob, uri, text, t[i].key, t[j].key);
        }
      } else {
        Matches(glob, text, t[i].key);
      }
    }
  }

  lemma ExactLosesOnlyWhenShadowed(t: Table, glob: Matcher, uri: string, i: nat, e: nat)
    requires Globbing(glob) && Selected(t, glob, uri, i) && Prefix(t[i].key)
    requires e < |t| && Literal(t[e].key) && glob(uri, t[e].key)
    ensures Shadowed(t, uri, e, i)
  {
    Matches(glob, uri, t[i].key);
    Matches(glob, uri, t[e].key);
    var stem := Stem(t[i].key);
    assert t[i].key == stem + "*";
    assert |uri| <= |stem| + 1;
    if |stem| == |uri| {
      assert stem == uri;
    } else {
      assert stem == Stem(uri);
      assert i != e;
    }
  }

  /** With exact patterns in the policy as well, longest-first is most-specific-first exactly when no
      wildcard pattern is tried before the exact pattern of the requested resource. */
  lemma LongestIsMostSpecificIff(t: Table, glob: Matcher, uri: string, i: nat)
    requires Globbing(glob) && AllSimple(t) && Selected(t, glob, uri, i)
    ensures MostSpecific(t, glob, uri, i) <==> forall e, s :: !Shadowed(t, uri, e, s)
  {
    if e: nat, s: nat :| Shadowed(t, uri, e, s) {
      ShadowWins(t, glob, uri, i, e, s);
    } else {
      UnshadowedIsMostSpecific(t, glob, uri, i);
    }
  }

  predicate BracketFree(t: seq<Row>) {
    forall i :: 0 <= i < |t| ==> '[' !in t[i].key
  }

  /** A pattern with a wildcard matches more than one text. */
  lemma {:induction false} WildcardMatchesMore(text: string, pattern: string) returns (other: string)
    requires Glob(text, pattern) && '[' !in pattern && !Literal(pattern)
    ensures other != text && Glob(other, pattern)
  {
    if pattern[0] == '*' {
      other := "x" + text;
      assert other[1..] == text && |other| == |text| + 1;
    } else if pattern[0] == '?' {
      other := [if text[0] == 'x' then 'y' else 'x'] + text[1..];
      assert other[0] != text[0] && other[1..] == text[1..];
    } else {
      assert pattern == [pattern[0]] + pattern[1..];
      var rest := WildcardMatchesMore(text[1..], pattern[1..]);
      other := [text[0]] + rest;
      assert other[1..] == rest && text == [text[0]] + text[1..];
    }
  }

  lemma WildcardIsNotMostSpecific(t: Table, glob: Matcher, uri: string, i: nat, e: nat)
    requires Globbing(glob) && BracketFree(t) && Selected(t, glob, uri, i) && !Literal(t[i].key)
    requires e < |t| && t[e].key == uri && Literal(uri)
    ensures !MostSpecific(t, glob, uri, i)
  {
    var other := WildcardMatchesMore(uri, t[i].key);
    LiteralMatches(uri, uri);
    LiteralMatches(other, uri);
    assert glob(uri, t[e].key) && glob(other, t[i].key) && !glob(other, t[e].key);
  }

  lemma OnlyTheExactIsLiteral(t: Table, glob: Matcher, uri: string, i: nat, e: nat)
    requires Globbing(glob) && BracketFree(t) && Selected(t, glob, uri, i)
    requires e < |t| && t[e].key == uri && Literal(uri) && Literal(t[i].key)
    ensures i == e
  {
    LiteralMatches(uri, t[i].key);
  }

  /** With any `*` and `?` patterns: where a resource has an exact pattern, the selected pattern is most
      specific exactly when it is that one, and it is that one exactly when every other pattern that
      matches is shorter, or as long and further down. */
  lemma {:induction false} ExactIsChosenIff(t: Table, glob: Matcher, uri: string, i: nat, e: nat)
    requires Globbing(glob) && BracketFree(t) && Selected(t, glob, uri, i)
    requires e < |t| && t[e].key == uri && Literal(uri)
    ensures MostSpecific(t, glob, uri, i) <==> i == e
    ensures i == e <==> forall j :: 0 <= j < |t| && j != e && glob(uri, t[j].key) ==>
                          |t[j].key| < |uri| || (|t[j].key| == |uri| && e < j)
  {
    LiteralMatches(uri, uri);
    assert glob(uri, t[e].key);
    if Literal(t[i].key) {
      OnlyTheExactIsLiteral(t, glob, uri, i, e);
    } else {
      WildcardIsNotMostSpecific(t, glob, uri, i, e);
    }
    if i == e {
      forall text | glob(text, uri) ensures text == uri {
        LiteralMatches(text, uri);
      }
    }
  }

  function ExactAndStarred(exact: Rule, starred: Rule): Table {
    [Row("r://a", exact), Row("r://a*", starred)]
  }

  lemma StarredIsSelected(glob: Matcher, exact: Rule, starred: Rule)
    requires Globbing(glob)
    ensures Selected(ExactAndStarred(exact, starred), glob, "r://a", 1)
  {
    assert Stem("r://a*") == "r://a";
    Matches(glob, "r://a", "r://a*");
  }

  /** A document with both `r://a` and `r://a*`: reading `r://a` is decided by the wildcard rule. */
  lemma ExactPatternCanLose(glob: Matcher, exact: Rule, starred: Rule)
    requires Globbing(glob)
    ensures var t := ExactAndStarred(exact, starred);
      SelectRule(t, glob, "r://a") == Some(starred) && !MostSpecific(t, glob, "r://a", 1)
  {
    var t := ExactAndStarred(exact, starred);
    StarredIsSelected(glob, exact, starred);
    SelectsEarliestLongest(t, glob, "r://a");
    assert Shadowed(t, "r://a", 0, 1) by {
      assert "r://a" + "*" == "r://a*";
    }
    ShadowWins(t, glob, "r://a", 1, 0, 1);
  }
}
