/** The relevance test `is_related_to_china_or_hk`: a page is relevant when, lower-cased, it
    contains one of the configured keywords or matches one of eight fixed regular
    expressions. Each expression is one of two shapes, written here as a search over the
    text instead of a regular-expression engine. */
module Relevance {
  import opened Text

  /** The keyword list of the default configuration. */
  const DefaultKeywords: seq<string> := ["china", "chinese", "hong kong", "中国", "香港"]

  const EnglishNouns: seq<string> :=
    ["entity", "entities", "person", "individual", "company", "companies", "organization", "organisations"]
  const ChineseNouns: seq<string> := ["公司", "企业", "实体", "个人", "组织"]
  const ChineseVerbs: seq<string> := ["被列入", "制裁"]

  /** The two shapes of the fixed expressions:
      `Phrase(p, alts)` is `p(a1|...|an)`, and `SameLine(p, alts)` is `p.*?(a1|...|an)`,
      where `.` matches any character except a line break. */
  datatype Pattern = Phrase(lead: string, alts: seq<string>) | SameLine(lead: string, alts: seq<string>)

  /** The eight expressions, in the order they are tried. */
  const Patterns: seq<Pattern> := [
    Phrase("chinese ", EnglishNouns),
    Phrase("hong kong ", EnglishNouns),
    Phrase("中国", ChineseNouns),
    Phrase("香港", ChineseNouns),
    SameLine("中国", ChineseVerbs),
    SameLine("香港", ChineseVerbs),
    SameLine("sanctions", ["china"]),
    SameLine("sanctions", ["hong kong"])
  ]

  // ---------------------------------------------------------------------------
  // Searching

  /** Some alternative is a prefix of `s`. */
  predicate StartsWithAny(s: string, alts: seq<string>)
    decreases |alts|
  {
    alts != [] && (alts[0] <= s || StartsWithAny(s, alts[1..]))
  }

  /** Search for `p(a1|...|an)`: some start position where `p` is directly followed by an alternative. */
  predicate PhraseSearch(s: string, p: string, alts: seq<string>)
    decreases |s|
  {
    (p <= s && StartsWithAny(s[|p|..], alts)) || (s != [] && PhraseSearch(s[1..], p, alts))
  }

  /** An alternative starts somewhere before the first line break of `s` (the lazy `.*?`). */
  predicate BeforeLineBreak(s: string, alts: seq<string>)
    decreases |s|
  {
    StartsWithAny(s, alts) || (s != [] && s[0] != '\n' && BeforeLineBreak(s[1..], alts))
  }

  /** Search for `p.*?(a1|...|an)`. */
  predicate SameLineSearch(s: string, p: string, alts: seq<string>)
    decreases |s|
  {
    (p <= s && BeforeLineBreak(s[|p|..], alts)) || (s != [] && SameLineSearch(s[1..], p, alts))
  }

  predicate Matches(pat: Pattern, s: string)
  {
    match pat
    case Phrase(p, alts) => PhraseSearch(s, p, alts)
    case SameLine(p, alts) => SameLineSearch(s, p, alts)
  }

  /** The keyword loop: some keyword, lower-cased, occurs in the lower-cased content. */
  predicate AnyKeyword(keywords: seq<string>, lowered: string)
    decreases |keywords|
  {
    keywords != [] && (Contains(lowered, Lower(keywords[0])) || AnyKeyword(keywords[1..], lowered))
  }

  /** The pattern loop. */
  predicate AnyPattern(pats: seq<Pattern>, lowered: string)
    decreases |pats|
  {
    pats != [] && (Matches(pats[0], lowered) || AnyPattern(pats[1..], lowered))
  }

  /** `is_related_to_china_or_hk(content)`. */
  predicate IsRelated(content: string, keywords: seq<string>)
  {
    content != "" && (AnyKeyword(keywords, Lower(content)) || AnyPattern(Patterns, Lower(content)))
  }

  // ---------------------------------------------------------------------------
  // Reference definitions: where the expressions match

  /** `p.*?(a1|...)` matches from position i: `p` occurs at i and an alternative starts at j,
      with no line break between the end of `p` and j. */
  predicate SameLineAt(s: string, p: string, alts: seq<string>, i: int, j: int)
  {
    OccursAt(s, p, i) && i + |p| <= j <= |s| && '\n' !in s[i + |p|..j] && StartsWithAny(s[j..], alts)
  }

  /** An alternative starts at j, and no line break comes before j. */
  predicate ReachableAt(s: string, alts: seq<string>, j: int)
  {
    0 <= j <= |s| && '\n' !in s[..j] && StartsWithAny(s[j..], alts)
  }

  predicate HasAlt(alts: seq<string>, p: string, s: string, k: int)
  {
    0 <= k < |alts| && Contains(s, p + alts[k])
  }

  /** What it means for an expression to match somewhere in `s`. */
  ghost predicate MatchesSpec(pat: Pattern, s: string)
  {
    match pat
    case Phrase(p, alts) => exists k :: HasAlt(alts, p, s, k)
    case SameLine(p, alts) => exists i, j :: SameLineAt(s, p, alts, i, j)
  }

  predicate KeywordAt(keywords: seq<string>, lowered: string, k: int)
  {
    0 <= k < |keywords| && Contains(lowered, Lower(keywords[k]))
  }

  ghost predicate PatternAt(pats: seq<Pattern>, lowered: string, n: int)
  {
    0 <= n < |pats| && MatchesSpec(pats[n], lowered)
  }

  // ---------------------------------------------------------------------------
  // The searches agree with the reference definitions

  lemma {:induction false} StartsWithAnyIff(s: string, alts: seq<string>)
    ensures StartsWithAny(s, alts) <==> exists k :: 0 <= k < |alts| && alts[k] <= s
    decreases |alts|
  {
    if alts != [] {
      StartsWithAnyIff(s, alts[1..]);
      if StartsWithAny(s, alts[1..]) {
        var k :| 0 <= k < |alts[1..]| && alts[1..][k] <= s;
        assert alts[k + 1] <= s;
      }
      forall k | 0 < k < |alts| && alts[k] <= s ensures StartsWithAny(s, alts[1..]) {
        assert alts[1..][k - 1] <= s;
      }
    }
  }

  lemma PrefixConcat(p: string, a: string, s: string)
    ensures p + a <= s <==> p <= s && a <= s[|p|..]
  {
    if p + a <= s {
      assert s[..|p|] == (p + a)[..|p|] == p;
      assert s[|p|..][..|a|] == (p + a)[|p|..] == a;
    }
    if p <= s && a <= s[|p|..] {
      assert s[..|p| + |a|] == s[..|p|] + s[|p|..][..|a|];
    }
  }

  lemma {:induction false} PhraseSearchIff(s: string, p: string, alts: seq<string>)
    ensures PhraseSearch(s, p, alts) <==> exists k :: HasAlt(alts, p, s, k)
    decreases |s|
  {
    if s != [] {
      PhraseSearchIff(s[1..], p, alts);
    }
    if p <= s && StartsWithAny(s[|p|..], alts) {
      StartsWithAnyIff(s[|p|..], alts);
      var k :| 0 <= k < |alts| && alts[k] <= s[|p|..];
      PrefixConcat(p, alts[k], s);
      assert HasAlt(alts, p, s, k);
    } else if s != [] && PhraseSearch(s[1..], p, alts) {
      var k :| HasAlt(alts, p, s[1..], k);
      assert HasAlt(alts, p, s, k);
    }
    forall k | HasAlt(alts, p, s, k) ensures PhraseSearch(s, p, alts) {
      if p + alts[k] <= s {
        PrefixConcat(p, alts[k], s);
        StartsWithAnyIff(s[|p|..], alts);
      } else {
        assert HasAlt(alts, p, s[1..], k);
      }
    }
  }

  lemma {:induction false} BeforeLineBreakIff(s: string, alts: seq<string>)
    ensures BeforeLineBreak(s, alts) <==> exists j :: ReachableAt(s, alts, j)
    decreases |s|
  {
    if s != [] {
      BeforeLineBreakIff(s[1..], alts);
    }
    if StartsWithAny(s, alts) {
      assert s[..0] == [] && s[0..] == s;
      assert ReachableAt(s, alts, 0);
    } else if s != [] && s[0] != '\n' && BeforeLineBreak(s[1..], alts) {
      var j :| ReachableAt(s[1..], alts, j);
      assert s[..j + 1] == [s[0]] + s[1..][..j];
      assert s[j + 1..] == s[1..][j..];
      assert ReachableAt(s, alts, j + 1);
    }
    forall j | ReachableAt(s, alts, j) ensures BeforeLineBreak(s, alts) {
      if j == 0 {
        assert s[0..] == s;
      } else {
        assert s[0] in s[..j];
        assert s[..j] == [s[0]] + s[1..][..j - 1];
        assert s[1..][j - 1..] == s[j..];
        assert ReachableAt(s[1..], alts, j - 1);
      }
    }
  }

  lemma SameLineShift(s: string, p: string, alts: seq<string>, i: int, j: int)
    requires s != [] && 0 <= i
    ensures SameLineAt(s[1..], p, alts, i, j) <==> SameLineAt(s, p, alts, i + 1, j + 1)
  {
    if 0 <= i && i + |p| <= j <= |s| - 1 {
      assert s[1..][i..i + |p|] == s[i + 1..i + 1 + |p|];
      assert s[1..][i + |p|..j] == s[i + 1 + |p|..j + 1];
      assert s[1..][j..] == s[j + 1..];
    }
  }

  lemma SameLineHead(s: string, p: string, alts: seq<string>, j: int)
    ensures SameLineAt(s, p, alts, 0, j) <==> p <= s && ReachableAt(s[|p|..], alts, j - |p|)
  {
    if p <= s && |p| <= j <= |s| {
      var t := s[|p|..];
      assert t[..j - |p|] == s[|p|..j];
      assert t[j - |p|..] == s[j..];
    }
  }

  lemma {:induction false} SameLineSearchIff(s: string, p: string, alts: seq<string>)
    ensures SameLineSearch(s, p, alts) <==> exists i, j :: SameLineAt(s, p, alts, i, j)
    decreases |s|
  {
    if s != [] {
      SameLineSearchIff(s[1..], p, alts);
    }
    if p <= s && BeforeLineBreak(s[|p|..], alts) {
      BeforeLineBreakIff(s[|p|..], alts);
      var j :| ReachableAt(s[|p|..], alts, j);
      SameLineHead(s, p, alts, |p| + j);
    } else if s != [] && SameLineSearch(s[1..], p, alts) {
      var i, j :| SameLineAt(s[1..], p, alts, i, j);
      SameLineShift(s, p, alts, i, j);
    }
    forall i, j | SameLineAt(s, p, alts, i, j) ensures SameLineSearch(s, p, alts) {
      if i == 0 {
        SameLineHead(s, p, alts, j);
        BeforeLineBreakIff(s[|p|..], alts);
      } else {
        SameLineShift(s, p, alts, i - 1, j - 1);
      }
    }
  }

  lemma MatchesIff(pat: Pattern, s: string)
    ensures Matches(pat, s) <==> MatchesSpec(pat, s)
  {
    match pat
    case Phrase(p, alts) => PhraseSearchIff(s, p, alts);
    case SameLine(p, alts) => SameLineSearchIff(s, p, alts);
  }

  lemma {:induction false} AnyKeywordIff(keywords: seq<string>, lowered: string)
    ensures AnyKeyword(keywords, lowered) <==> exists k :: KeywordAt(keywords, lowered, k)
    decreases |keywords|
  {
    if keywords != [] {
      AnyKeywordIff(keywords[1..], lowered);
      if AnyKeyword(keywords[1..], lowered) {
        var k :| KeywordAt(keywords[1..], lowered, k);
        assert KeywordAt(keywords, lowered, k + 1);
      }
      if Contains(lowered, Lower(keywords[0])) {
        assert KeywordAt(keywords, lowered, 0);
      }
      forall k | KeywordAt(keywords, lowered, k) && k > 0 ensures AnyKeyword(keywords[1..], lowered) {
        assert KeywordAt(keywords[1..], lowered, k - 1);
      }
    }
  }

  lemma {:induction false} AnyPatternIff(pats: seq<Pattern>, lowered: string)
    ensures AnyPattern(pats, lowered) <==> exists n :: PatternAt(pats, lowered, n)
    decreases |pats|
  {
    if pats != [] {
      MatchesIff(pats[0], lowered);
      AnyPatternIff(pats[1..], lowered);
      if AnyPattern(pats[1..], lowered) {
        var n :| PatternAt(pats[1..], lowered, n);
        assert PatternAt(pats, lowered, n + 1);
      }
      if Matches(pats[0], lowered) {
        assert PatternAt(pats, lowered, 0);
      }
      forall n | PatternAt(pats, lowered, n) && n > 0 ensures AnyPattern(pats[1..], lowered) {
        assert PatternAt(pats[1..], lowered, n - 1);
      }
    }
  }

  // ---------------------------------------------------------------------------
  // Properties of the relevance test

  /** Relevance, stated without the search loops: the content is non-empty and, lower-cased,
      either contains a lower-cased keyword or is matched somewhere by one of the eight expressions. */
  lemma RelatedIff(content: string, keywords: seq<string>)
    ensures IsRelated(content, keywords) <==>
      content != "" &&
      ((exists k :: KeywordAt(keywords, Lower(content), k)) ||
       (exists n :: PatternAt(Patterns, Lower(content), n)))
  {
    AnyKeywordIff(keywords, Lower(content));
    AnyPatternIff(Patterns, Lower(content));
    assert AnyKeyword(keywords, Lower(content)) <==> exists k :: KeywordAt(keywords, Lower(content), k);
    assert AnyPattern(Patterns, Lower(content)) <==> exists n :: PatternAt(Patterns, Lower(content), n);
  }

  /** Empty content is never relevant, whatever the keywords (an empty keyword included). */
  lemma EmptyNotRelated(keywords: seq<string>)
    ensures !IsRelated("", keywords)
  {
  }

  /** A keyword hit alone makes non-empty content relevant. */
  lemma KeywordMakesRelated(content: string, keywords: seq<string>, k: int)
    requires content != ""
    requires 0 <= k < |keywords| && Contains(Lower(content), Lower(keywords[k]))
    ensures IsRelated(content, keywords)
  {
    assert KeywordAt(keywords, Lower(content), k);
    AnyKeywordIff(keywords, Lower(content));
  }

  /** With no keyword hit, relevance is exactly a match of one of the eight expressions. */
  lemma NoKeywordThenPatterns(content: string, keywords: seq<string>)
    requires content != ""
    requires forall k :: 0 <= k < |keywords| ==> !Contains(Lower(content), Lower(keywords[k]))
    ensures IsRelated(content, keywords) <==> exists n :: PatternAt(Patterns, Lower(content), n)
  {
    AnyKeywordIff(keywords, Lower(content));
    AnyPatternIff(Patterns, Lower(content));
    assert !AnyKeyword(keywords, Lower(content)) by {
      assert forall k :: !KeywordAt(keywords, Lower(content), k);
    }
    assert AnyPattern(Patterns, Lower(content)) <==> exists n :: PatternAt(Patterns, Lower(content), n);
  }

  /** The test only sees the lower-cased content. */
  lemma RelatedIgnoresCase(content: string, keywords: seq<string>)
    ensures IsRelated(Lower(content), keywords) == IsRelated(content, keywords)
  {
    LowerIdempotent(content);
    LowerShape(content);
  }
}
