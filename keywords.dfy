/** The keyword side of the scorer: which JD tokens count as important, and
    how they split into those the resume contains (`found`) and those it
    lacks (`missing`).

    Python builds `important_keywords` by iterating over a set, in an order
    the language does not fix. The model therefore works on any sequence
    that enumerates the set (`Enumerates`), and the lemmas hold for every
    such order. */
module Keywords {

  /** Keywords of this many characters or fewer are ignored. */
  const ShortWordLength: nat := 4

  ghost predicate Distinct<T>(xs: seq<T>)
  {
    forall i, j :: 0 <= i < j < |xs| ==> xs[i] != xs[j]
  }

  /** `xs` lists the elements of `s`, each once, in some order: one possible
      iteration order of a Python set. */
  ghost predicate Enumerates<T(!new)>(xs: seq<T>, s: set<T>)
  {
    Distinct(xs) && forall x :: x in xs <==> x in s
  }

  /** `xs` is `ys` with some elements left out and the rest in their order. */
  ghost predicate IsSubsequence<T>(xs: seq<T>, ys: seq<T>)
    decreases |ys|
  {
    xs == [] || (ys != [] && ((xs[0] == ys[0] && IsSubsequence(xs[1..], ys[1..])) || IsSubsequence(xs, ys[1..])))
  }

  /** `[w for w in jd_words if len(w) > 4]`, over one iteration order of
      `jd_words`. */
  function ImportantKeywords(jdWords: seq<string>): (ks: seq<string>)
    ensures forall w :: w in ks <==> w in jdWords && |w| > ShortWordLength
    ensures IsSubsequence(ks, jdWords)
  {
    if jdWords == [] then []
    else
      var rest := ImportantKeywords(jdWords[1..]);
      if |jdWords[0]| > ShortWordLength then
        assert ([jdWords[0]] + rest)[1..] == rest;
        [jdWords[0]] + rest
      else rest
  }

  /** `[w for w in important_keywords if w in resume_words]`. */
  function Found(keywords: seq<string>, resumeWords: set<string>): (r: seq<string>)
    ensures forall w :: w in r <==> w in keywords && w in resumeWords
    ensures IsSubsequence(r, keywords)
  {
    if keywords == [] then []
    else
      var rest := Found(keywords[1..], resumeWords);
      if keywords[0] in resumeWords then
        assert ([keywords[0]] + rest)[1..] == rest;
        [keywords[0]] + rest
      else rest
  }

  /** `[w for w in important_keywords if w not in resume_words]`. */
  function Missing(keywords: seq<string>, resumeWords: set<string>): (r: seq<string>)
    ensures forall w :: w in r <==> w in keywords && w !in resumeWords
    ensures IsSubsequence(r, keywords)
  {
    if keywords == [] then []
    else
      var rest := Missing(keywords[1..], resumeWords);
      if keywords[0] !in resumeWords then
        assert ([keywords[0]] + rest)[1..] == rest;
        [keywords[0]] + rest
      else rest
  }

  /** The set the important keywords enumerate. */
  ghost function ImportantSet(jdTokens: set<string>): set<string>
  {
    set w | w in jdTokens && |w| > ShortWordLength
  }

  /** A subsequence of a list without repetitions has none either. */
  lemma {:induction false} SubsequenceDistinct<T>(xs: seq<T>, ys: seq<T>)
    requires IsSubsequence(xs, ys) && Distinct(ys)
    ensures Distinct(xs)
    decreases |ys|
  {
    if xs != [] {
      assert Distinct(ys[1..]) by {
        forall i, j | 0 <= i < j < |ys| - 1 ensures ys[1..][i] != ys[1..][j] {
          assert ys[1..][i] == ys[i + 1] && ys[1..][j] == ys[j + 1];
        }
      }
      if xs[0] == ys[0] && IsSubsequence(xs[1..], ys[1..]) {
        SubsequenceDistinct(xs[1..], ys[1..]);
        SubsequenceMembers(xs[1..], ys[1..]);
        forall i, j | 0 <= i < j < |xs| ensures xs[i] != xs[j] {
          if i == 0 {
            assert xs[j] == xs[1..][j - 1];
            assert xs[j] in ys[1..];
            var m :| 0 <= m < |ys[1..]| && ys[1..][m] == xs[j];
            assert ys[m + 1] == xs[j];
          } else {
            assert xs[i] == xs[1..][i - 1] && xs[j] == xs[1..][j - 1];
          }
        }
      } else {
        SubsequenceDistinct(xs, ys[1..]);
      }
    }
  }

  /** Every element of a subsequence is an element of the whole. */
  lemma {:induction false} SubsequenceMembers<T>(xs: seq<T>, ys: seq<T>)
    requires IsSubsequence(xs, ys)
    ensures forall x :: x in xs ==> x in ys
    decreases |ys|
  {
    if xs != [] {
      if xs[0] == ys[0] && IsSubsequence(xs[1..], ys[1..]) {
        SubsequenceMembers(xs[1..], ys[1..]);
        assert xs == [xs[0]] + xs[1..];
        assert ys == [ys[0]] + ys[1..];
      } else {
        SubsequenceMembers(xs, ys[1..]);
        assert ys == [ys[0]] + ys[1..];
      }
    }
  }

  /** Over any iteration order of the JD token set, the important keywords
      are listed without repetition and are exactly the JD tokens longer than
      four characters. */
  lemma ImportantKeywordsSpec(jdWords: seq<string>, jdTokens: set<string>)
    requires Enumerates(jdWords, jdTokens)
    ensures Enumerates(ImportantKeywords(jdWords), ImportantSet(jdTokens))
  {
    SubsequenceDistinct(ImportantKeywords(jdWords), jdWords);
  }

  /** `found` and `missing` partition the important keywords: no keyword is
      in both, every keyword is in one of them, and their lengths add up. */
  lemma {:induction false} PartitionSpec(keywords: seq<string>, resumeWords: set<string>)
    ensures forall w :: w in Found(keywords, resumeWords) ==> w !in Missing(keywords, resumeWords)
    ensures forall w :: w in keywords <==> w in Found(keywords, resumeWords) || w in Missing(keywords, resumeWords)
    ensures |Found(keywords, resumeWords)| + |Missing(keywords, resumeWords)| == |keywords|
  {
    if keywords != [] {
      PartitionSpec(keywords[1..], resumeWords);
    }
  }

  /** Over keywords listed without repetition, `found` and `missing` have no
      repetition either. */
  lemma PartitionDistinct(keywords: seq<string>, resumeWords: set<string>)
    requires Distinct(keywords)
    ensures Distinct(Found(keywords, resumeWords)) && Distinct(Missing(keywords, resumeWords))
  {
    SubsequenceDistinct(Found(keywords, resumeWords), keywords);
    SubsequenceDistinct(Missing(keywords, resumeWords), keywords);
  }

  /** A list without repetition has as many elements as the set it lists. */
  lemma {:induction false} EnumerationLength<T(!new)>(xs: seq<T>, s: set<T>)
    requires Enumerates(xs, s)
    ensures |xs| == |s|
    decreases |xs|
  {
    if xs != [] {
      var rest := s - {xs[0]};
      assert Enumerates(xs[1..], rest) by {
        forall i, j | 0 <= i < j < |xs| - 1 ensures xs[1..][i] != xs[1..][j] {
          assert xs[1..][i] == xs[i + 1] && xs[1..][j] == xs[j + 1];
        }
        forall x ensures x in xs[1..] <==> x in rest {
          if x in xs[1..] {
            var m :| 0 <= m < |xs[1..]| && xs[1..][m] == x;
            assert xs[m + 1] == x;
          }
          if x in rest {
            var m :| 0 <= m < |xs| && xs[m] == x;
            assert m != 0;
            assert xs[1..][m - 1] == x;
          }
        }
      }
      EnumerationLength(xs[1..], rest);
    }
  }

  /** How many important keywords the resume contains depends only on the
      sets involved, not on the order the JD tokens were iterated in. */
  lemma FoundCount(jdWords: seq<string>, jdTokens: set<string>, resumeWords: set<string>)
    requires Enumerates(jdWords, jdTokens)
    ensures |Found(ImportantKeywords(jdWords), resumeWords)| == |ImportantSet(jdTokens) * resumeWords|
    ensures |ImportantKeywords(jdWords)| == |ImportantSet(jdTokens)|
  {
    var ks := ImportantKeywords(jdWords);
    ImportantKeywordsSpec(jdWords, jdTokens);
    PartitionDistinct(ks, resumeWords);
    EnumerationLength(ks, ImportantSet(jdTokens));
    EnumerationLength(Found(ks, resumeWords), ImportantSet(jdTokens) * resumeWords);
  }

  /** Every found keyword is an important JD token the resume contains, and
      every missing one is an important JD token the resume lacks. */
  lemma KeywordLists(jdWords: seq<string>, jdTokens: set<string>, resumeWords: set<string>)
    requires Enumerates(jdWords, jdTokens)
    ensures forall w :: w in Found(ImportantKeywords(jdWords), resumeWords) <==>
              w in jdTokens && |w| > ShortWordLength && w in resumeWords
    ensures forall w :: w in Missing(ImportantKeywords(jdWords), resumeWords) <==>
              w in jdTokens && |w| > ShortWordLength && w !in resumeWords
  {
  }

  /** The important keywords the resume contains are at most all of them,
      and are all of them exactly when the resume contains every one. */
  lemma CoveredCount(important: set<string>, resumeWords: set<string>)
    ensures |important * resumeWords| <= |important|
    ensures |important * resumeWords| == |important| <==> important <= resumeWords
  {
    var covered := important * resumeWords;
    assert important == covered + (important - covered);
    assert |important| == |covered| + |important - covered|;
    if |covered| == |important| {
      assert important - covered == {};
    }
  }

  /** Against an empty resume nothing is found. */
  lemma {:induction false} FoundNothing(keywords: seq<string>)
    ensures Found(keywords, {}) == []
  {
    if keywords != [] {
      FoundNothing(keywords[1..]);
    }
  }

  /** The keywords found for the worked example of the Report module. */
  lemma ExampleFound()
    ensures var important := ["looking", "python", "developer", "strong", "backend", "experience"];
            var resumeTokens := {"experienced", "backend", "developer", "skilled", "python", "and", "distributed", "systems"};
            Found(important, resumeTokens) == ["python", "developer", "backend"]
  {
    var resumeTokens := {"experienced", "backend", "developer", "skilled", "python", "and", "distributed", "systems"};
    assert "looking" !in resumeTokens && "strong" !in resumeTokens && "experience" !in resumeTokens;
  }

  /** The keywords missing for the worked example of the Report module: the
      JD keyword "experience" is missing from a resume whose token is
      "experienced". */
  lemma ExampleMissing()
    ensures var important := ["looking", "python", "developer", "strong", "backend", "experience"];
            var resumeTokens := {"experienced", "backend", "developer", "skilled", "python", "and", "distributed", "systems"};
            Missing(important, resumeTokens) == ["looking", "strong", "experience"]
  {
    var resumeTokens := {"experienced", "backend", "developer", "skilled", "python", "and", "distributed", "systems"};
    assert "looking" !in resumeTokens && "strong" !in resumeTokens && "experience" !in resumeTokens;
  }
}
