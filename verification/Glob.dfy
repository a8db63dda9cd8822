/** The glob matcher of utils/match.go, proved against the language a pattern denotes. */
module Glob {

  /** The pieces of text one pattern symbol stands for. */
  predicate Fits(symbol: char, piece: string) {
    match symbol
    case '?' => |piece| == 1
    case '*' => true
    case _ => piece == [symbol]
  }

  function Concat(pieces: seq<string>): string {
    if pieces == [] then "" else pieces[0] + Concat(pieces[1..])
  }

  ghost predicate Covers(pattern: string, pieces: seq<string>) {
    |pieces| == |pattern| && forall i | 0 <= i < |pattern| :: Fits(pattern[i], pieces[i])
  }

  /** `s` can be cut into one piece per symbol of the pattern, each piece fitting its symbol. */
  ghost predicate InLanguage(pattern: string, s: string) {
    exists pieces :: Covers(pattern, pieces) && Concat(pieces) == s
  }

  ghost predicate Literal(pattern: string) {
    forall i | 0 <= i < |pattern| :: pattern[i] != '*' && pattern[i] != '?'
  }

  lemma {:induction false} ConcatAppend(a: seq<string>, b: seq<string>)
    ensures Concat(a + b) == Concat(a) + Concat(b)
  {
    if a == [] {
      assert a + b == b;
    } else {
      ConcatAppend(a[1..], b);
      assert (a + b)[1..] == a[1..] + b && (a + b)[0] == a[0];
      assert Concat(a) == a[0] + Concat(a[1..]);
      assert Concat(a + b) == a[0] + (Concat(a[1..]) + Concat(b));
    }
  }

  lemma Divide(p: string, q: string, pieces: seq<string>)
    requires Covers(p + q, pieces)
    ensures var s, k := Concat(pieces), |Concat(pieces[..|p|])|;
            k <= |s| && InLanguage(p, s[..k]) && InLanguage(q, s[k..])
  {
    var a, b := pieces[..|p|], pieces[|p|..];
    ConcatAppend(a, b);
    assert a + b == pieces;
    assert forall i | 0 <= i < |q| :: (p + q)[|p| + i] == q[i] && pieces[|p| + i] == b[i];
    assert Covers(p, a) && Covers(q, b);
    assert Concat(pieces)[..|Concat(a)|] == Concat(a) && Concat(pieces)[|Concat(a)|..] == Concat(b);
  }

  lemma Combine(p: string, q: string, s: string, t: string)
    requires InLanguage(p, s) && InLanguage(q, t)
    ensures InLanguage(p + q, s + t)
  {
    var a :| Covers(p, a) && Concat(a) == s;
    var b :| Covers(q, b) && Concat(b) == t;
    ConcatAppend(a, b);
    assert Covers(p + q, a + b);
  }

  /** The language of a concatenation is the concatenation of the languages. */
  lemma LanguageOfConcatenation(p: string, q: string, s: string)
    ensures InLanguage(p + q, s)
       <==> exists k :: 0 <= k <= |s| && InLanguage(p, s[..k]) && InLanguage(q, s[k..])
  {
    if InLanguage(p + q, s) {
      var pieces :| Covers(p + q, pieces) && Concat(pieces) == s;
      Divide(p, q, pieces);
    }
    if k :| 0 <= k <= |s| && InLanguage(p, s[..k]) && InLanguage(q, s[k..]) {
      Combine(p, q, s[..k], s[k..]);
      assert s[..k] + s[k..] == s;
    }
  }

  lemma LanguageOfEmpty(s: string)
    ensures InLanguage("", s) <==> s == ""
  {
    if s == "" {
      assert Covers("", []) && Concat([]) == s;
    }
  }

  lemma LanguageOfSymbol(symbol: char, s: string)
    ensures InLanguage([symbol], s) <==> Fits(symbol, s)
  {
    assert Concat([s]) == s + Concat([]) == s;
    if Fits(symbol, s) {
      assert Covers([symbol], [s]);
    }
    if InLanguage([symbol], s) {
      var pieces :| Covers([symbol], pieces) && Concat(pieces) == s;
      assert pieces == [pieces[0]];
      assert Concat(pieces) == pieces[0] + Concat(pieces[1..]) == pieces[0];
    }
  }

  /** The first symbol takes a prefix it fits, the other symbols the rest. */
  lemma LanguageUnfolds(pattern: string, s: string)
    requires pattern != ""
    ensures InLanguage(pattern, s)
       <==> exists k :: 0 <= k <= |s| && Fits(pattern[0], s[..k]) && InLanguage(pattern[1..], s[k..])
  {
    LanguageOfConcatenation([pattern[0]], pattern[1..], s);
    assert [pattern[0]] + pattern[1..] == pattern;
    forall k | 0 <= k <= |s|
      ensures InLanguage([pattern[0]], s[..k]) <==> Fits(pattern[0], s[..k])
    {
      LanguageOfSymbol(pattern[0], s[..k]);
    }
  }

  lemma LanguageOfOneRune(pattern: string, s: string)
    requires pattern != "" && pattern[0] != '*'
    ensures InLanguage(pattern, s)
       <==> s != "" && (pattern[0] == '?' || s[0] == pattern[0]) && InLanguage(pattern[1..], s[1..])
  {
    LanguageUnfolds(pattern, s);
    if s != "" {
      assert s[..1] == [s[0]];
    }
  }

  lemma LanguageOfStar(pattern: string, s: string)
    requires pattern != "" && pattern[0] == '*'
    ensures InLanguage(pattern, s)
       <==> InLanguage(pattern[1..], s) || (s != "" && InLanguage(pattern, s[1..]))
  {
    LanguageUnfolds(pattern, s);
    assert s[0..] == s;
    if s != "" {
      LanguageUnfolds(pattern, s[1..]);
      if k :| 0 <= k <= |s| && InLanguage(pattern[1..], s[k..]) && k > 0 {
        assert s[1..][k - 1..] == s[k..];
        assert Fits('*', s[1..][..k - 1]);
      }
      if k :| 0 <= k <= |s[1..]| && InLanguage(pattern[1..], s[1..][k..]) {
        assert s[1..][k..] == s[k + 1..];
        assert Fits('*', s[..k + 1]);
      }
    }
  }

  /** A wildcard-free prefix of a pattern must stand in front of the text as it is. */
  lemma {:induction false} LanguageOfLiteralPrefix(word: string, pattern: string, s: string)
    requires Literal(word)
    ensures InLanguage(word + pattern, s) <==> word <= s && InLanguage(pattern, s[|word|..])
    decreases |word|
  {
    if word == "" {
      assert word + pattern == pattern && s[0..] == s;
    } else {
      assert (word + pattern)[0] == word[0];
      LanguageOfOneRune(word + pattern, s);
      assert (word + pattern)[1..] == word[1..] + pattern;
      if s != "" {
        LanguageOfLiteralPrefix(word[1..], pattern, s[1..]);
        assert word <= s <==> word[0] == s[0] && word[1..] <= s[1..];
        assert word <= s ==> s[1..][|word[1..]|..] == s[|word|..];
      }
    }
  }

  method MatchRune(rs0: string, pattern0: string) returns (matched: bool)
    ensures matched <==> InLanguage(pattern0, rs0)
    decreases |rs0| + |pattern0|
  {
    var rs, pattern := rs0, pattern0;
    while |pattern| > 0
      invariant InLanguage(pattern, rs) <==> InLanguage(pattern0, rs0)
      invariant |rs| + |pattern| <= |rs0| + |pattern0|
      decreases |pattern|
    {
      var n := |rs|;
      if pattern[0] == '*' {
        LanguageOfStar(pattern, rs);
        var skipped := MatchRune(rs, pattern[1..]);
        if skipped {
          return true;
        }
        if n == 0 {
          return false;
        }
        matched := MatchRune(rs[1..], pattern);
        return;
      }
      LanguageOfOneRune(pattern, rs);
      if pattern[0] == '?' {
        if n == 0 {
          return false;
        }
      } else if n == 0 || rs[0] != pattern[0] {
        return false;
      }
      rs := rs[1..];
      pattern := pattern[1..];
    }
    LanguageOfEmpty(rs);
    return |rs| == 0 && |pattern| == 0;
  }

  /** The exported matcher: two shortcuts, then the runes of both strings are collected and matched. */
  method Match(pattern: string, s: string) returns (matched: bool)
    ensures matched <==> InLanguage(pattern, s)
  {
    if pattern == "" {
      LanguageOfEmpty(s);
      return s == pattern;
    }
    if pattern == "*" {
      LanguageOfSymbol('*', s);
      return true;
    }
    var rs, rpattern := "", "";
    for i := 0 to |s|
      invariant rs == s[..i]
    {
      rs := rs + [s[i]];
    }
    for i := 0 to |pattern|
      invariant rpattern == pattern[..i]
    {
      rpattern := rpattern + [pattern[i]];
    }
    assert rs == s && rpattern == pattern;
    matched := MatchRune(rs, rpattern);
  }
}
