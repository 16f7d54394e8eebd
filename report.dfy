/** The `/analyze` response assembled from the scores: the final score,
    the fixed-shape breakdown, the strengths and improvements lines and the
    truncated keyword evidence. */
module Report {
  import opened Text
  import opened Keywords
  import opened Scoring

  /** Constant "Education" sub-score. */
  const EducationScore: int := 95
  /** Constant "Formatting" sub-score. */
  const FormattingScore: int := 90
  /** Bonus added to the semantic score for "Experience Match". */
  const ExperienceBonus: real := 5.0
  /** How many keywords each evidence list shows. */
  const EvidenceLimit: nat := 10
  /** How many missing keywords the first improvement names. */
  const NamedMissing: nat := 3

  datatype Breakdown = Breakdown(
    semanticMatch: int,
    keywordMatch: int,
    experienceMatch: int,
    education: int,
    formatting: int)

  datatype Evidence = Evidence(present: seq<string>, missing: seq<string>)

  datatype Response = Response(
    score: int,
    breakdown: Breakdown,
    strengths: seq<string>,
    improvements: seq<string>,
    keywords: Evidence)

  /** `xs[:n]`. */
  function Take<T>(xs: seq<T>, n: nat): (r: seq<T>)
    ensures |r| <= n
    ensures |xs| <= n ==> r == xs
    ensures |xs| > n ==> |r| == n
    ensures r <= xs
    ensures forall x :: x in r ==> x in xs
  {
    if |xs| <= n then xs else xs[..n]
  }

  /** `sep.join(xs)`. */
  function Join(sep: string, xs: seq<string>): (r: string)
    ensures xs == [] ==> r == ""
    ensures |xs| == 1 ==> r == xs[0]
    ensures xs != [] ==> xs[0] <= r
    ensures |xs| > 1 ==> xs[0] + sep <= r
    ensures |xs| == 2 ==> r == xs[0] + sep + xs[1]
    ensures |xs| == 3 ==> r == xs[0] + sep + xs[1] + sep + xs[2]
  {
    if xs == [] then ""
    else if |xs| == 1 then xs[0]
    else xs[0] + sep + Join(sep, xs[1..])
  }

  predicate IsDigit(c: char)
  {
    '0' as int <= c as int <= '9' as int
  }

  function DigitChar(d: nat): (c: char)
    requires d < 10
    ensures IsDigit(c) && c as int - '0' as int == d
  {
    ('0' as int + d) as char
  }

  /** The number a string of decimal digits denotes. */
  function DecimalValue(s: string): nat
    requires forall k :: 0 <= k < |s| ==> IsDigit(s[k])
    decreases |s|
  {
    if s == [] then 0
    else
      var last := s[|s| - 1];
      assert IsDigit(last);
      DecimalValue(s[..|s| - 1]) * 10 + (last as int - '0' as int)
  }

  /** `str(n)`: decimal digits without leading zeros, denoting `n`. */
  function Decimal(n: nat): (s: string)
    ensures |s| >= 1
    ensures forall k :: 0 <= k < |s| ==> IsDigit(s[k])
    ensures s[0] == '0' ==> n == 0
    ensures DecimalValue(s) == n
    decreases n
  {
    if n < 10 then [DigitChar(n)]
    else
      var s := Decimal(n / 10) + [DigitChar(n % 10)];
      assert s[..|s| - 1] == Decimal(n / 10);
      s
  }

  /** The breakdown: the two scores truncated, the experience score capped
      at 100, and the two constant placeholders. */
  function MakeBreakdown(semantic: real, keyword: real): (b: Breakdown)
    ensures 0.0 <= semantic ==> b.semanticMatch as real <= semantic < b.semanticMatch as real + 1.0
    ensures 0.0 <= keyword ==> b.keywordMatch as real <= keyword < b.keywordMatch as real + 1.0
    ensures 0.0 <= semantic <= 100.0 && 0.0 <= keyword <= 100.0 ==>
              && 0 <= b.semanticMatch <= 100
              && 0 <= b.keywordMatch <= 100
              && 0 <= b.experienceMatch <= 100
    ensures 0.0 <= semantic ==> b.experienceMatch == if b.semanticMatch + 5 <= 100 then b.semanticMatch + 5 else 100
    ensures b.education == EducationScore && b.formatting == FormattingScore
  {
    var experience := Trunc(semantic + ExperienceBonus);
    Breakdown(
      Trunc(semantic),
      Trunc(keyword),
      if 100 <= experience then 100 else experience,
      EducationScore,
      FormattingScore)
  }

  const StrengthsPrefix: string := "Successfully matched "
  const StrengthsSuffix: string := " core industry terms"
  const MissingPrefix: string := "Missing critical keywords: "

  function Strengths(foundCount: nat): seq<string>
  {
    [ "Strong contextual alignment with the role",
      "Modern document structure detected",
      StrengthsPrefix + Decimal(foundCount) + StrengthsSuffix ]
  }

  function Improvements(missing: seq<string>): seq<string>
  {
    [ MissingPrefix + Join(", ", Take(missing, NamedMissing)),
      "Try to use more specific industry terminology",
      "Ensure your most relevant skills are in the top 30% of the page" ]
  }

  /** The percentage of the important JD keywords present in the resume,
      defined on sets alone. */
  ghost function KeywordPercent(important: set<string>, resumeTokens: set<string>): real
  {
    KeywordScore(|important * resumeTokens|, |important|)
  }

  /** The response `analyze` builds from the clamped semantic score, the
      resume's word count, the important JD keywords (in iteration order) and
      the resume's token set. */
  function Respond(semantic: real, wordCount: nat, important: seq<string>, resumeTokens: set<string>): (r: Response)
    ensures 0.0 <= semantic <= 100.0 ==> 0 <= r.score <= 100
    ensures 0.0 <= semantic <= 100.0 ==> 0 <= r.breakdown.semanticMatch <= 100
    ensures 0.0 <= semantic <= 100.0 ==> 0 <= r.breakdown.experienceMatch <= 100
    ensures wordCount < MinWordCount ==> r.score >= PenaltyFloor
    ensures 0 <= r.breakdown.keywordMatch <= 100
    ensures r.breakdown.education == EducationScore && r.breakdown.formatting == FormattingScore
    ensures |r.keywords.present| <= EvidenceLimit && |r.keywords.missing| <= EvidenceLimit
    ensures r.keywords.present == Take(Found(important, resumeTokens), EvidenceLimit)
    ensures r.keywords.missing == Take(Missing(important, resumeTokens), EvidenceLimit)
    ensures forall w :: w in r.keywords.present ==> w in important && w in resumeTokens
    ensures forall w :: w in r.keywords.missing ==> w in important && w !in resumeTokens
    ensures |r.strengths| == 3 && |r.improvements| == 3
  {
    var found := Found(important, resumeTokens);
    var missing := Missing(important, resumeTokens);
    PartitionSpec(important, resumeTokens);
    var keyword := KeywordScore(|found|, |important|);
    var score := AdjustForLength(BaseScore(semantic, keyword), wordCount);
    Response(
      score,
      MakeBreakdown(semantic, keyword),
      Strengths(|found|),
      Improvements(missing),
      Evidence(Take(found, EvidenceLimit), Take(missing, EvidenceLimit)))
  }

  /** The third strength states how many important keywords the resume
      contains. */
  lemma StrengthsCount(semantic: real, wordCount: nat, important: seq<string>, resumeTokens: set<string>)
    ensures var line := Respond(semantic, wordCount, important, resumeTokens).strengths[2];
            && |line| > |StrengthsPrefix| + |StrengthsSuffix|
            && (var digits := line[|StrengthsPrefix|..|line| - |StrengthsSuffix|];
                (forall k :: 0 <= k < |digits| ==> IsDigit(digits[k]))
                && DecimalValue(digits) == |Found(important, resumeTokens)|)
  {
    StrengthsSpec(|Found(important, resumeTokens)|);
  }

  /** The first improvement is the bare prefix when the resume contains
      every important keyword, and otherwise begins with one it lacks. */
  lemma MissingMessage(semantic: real, wordCount: nat, important: seq<string>, resumeTokens: set<string>)
    ensures var line := Respond(semantic, wordCount, important, resumeTokens).improvements[0];
            && ((forall w :: w in important ==> w in resumeTokens) ==> line == MissingPrefix)
            && ((exists w :: w in important && w !in resumeTokens) ==>
                  exists w :: w in important && w !in resumeTokens && MissingPrefix + w <= line)
  {
    var missing := Missing(important, resumeTokens);
    ImprovementsSpec(missing);
    if missing != [] {
      assert missing[0] in missing;
    }
    if exists w :: w in important && w !in resumeTokens {
      var w :| w in important && w !in resumeTokens;
      assert w in missing;
    }
  }

  /** A resume without tokens and without words matches no keyword, gets no
      keyword credit, is penalised and scores between 10 and 30. */
  lemma RespondToEmpty(semantic: real, important: seq<string>)
    requires 0.0 <= semantic <= 100.0
    ensures var r := Respond(semantic, 0, important, {});
            && r.keywords.present == []
            && r.breakdown.keywordMatch == 0
            && r.score == AdjustForLength(BaseScore(semantic, 0.0), 0)
            && PenaltyFloor <= r.score <= 30
  {
    FoundNothing(important);
    NoKeywordScore(semantic);
  }

  /** The body of `analyze` after the request is read and the text
      extracted. `similarity` is the cosine similarity the embedding model
      returns and `jdOrder` is the order in which Python iterates the set of
      JD tokens. */
  function Analyze(cc: CharClass, resumeText: string, jdText: string, similarity: real, jdOrder: seq<string>): (r: Response)
    requires Enumerates(jdOrder, Tokens(cc, jdText))
    ensures 0 <= r.score <= 100
    ensures WordCount(cc, resumeText) < MinWordCount ==> r.score >= PenaltyFloor
    ensures 0 <= r.breakdown.semanticMatch <= 100 && 0 <= r.breakdown.keywordMatch <= 100
    ensures 0 <= r.breakdown.experienceMatch <= 100
    ensures r.breakdown.education == EducationScore && r.breakdown.formatting == FormattingScore
    ensures |r.keywords.present| <= EvidenceLimit && |r.keywords.missing| <= EvidenceLimit
    ensures forall w :: w in r.keywords.present ==>
              w in Tokens(cc, jdText) && |w| > ShortWordLength && w in Tokens(cc, resumeText)
    ensures forall w :: w in r.keywords.missing ==>
              w in Tokens(cc, jdText) && |w| > ShortWordLength && w !in Tokens(cc, resumeText)
    ensures |r.strengths| == 3 && |r.improvements| == 3
    ensures r.keywords.present == Take(Found(ImportantKeywords(jdOrder), Tokens(cc, resumeText)), EvidenceLimit)
    ensures r.keywords.missing == Take(Missing(ImportantKeywords(jdOrder), Tokens(cc, resumeText)), EvidenceLimit)
  {
    KeywordLists(jdOrder, Tokens(cc, jdText), Tokens(cc, resumeText));
    Respond(SemanticScore(similarity), WordCount(cc, resumeText), ImportantKeywords(jdOrder), Tokens(cc, resumeText))
  }

  /** The scores depend only on the token sets, the similarity and the word
      count, so every iteration order of the JD token set gives the same
      ones: the keyword score is the set-based percentage, the score is the
      composite adjusted for length. */
  lemma AnalyzeScores(cc: CharClass, resumeText: string, jdText: string, similarity: real, jdOrder: seq<string>)
    requires Enumerates(jdOrder, Tokens(cc, jdText))
    ensures var r := Analyze(cc, resumeText, jdText, similarity, jdOrder);
            var keyword := KeywordPercent(ImportantSet(Tokens(cc, jdText)), Tokens(cc, resumeText));
            && r.breakdown == MakeBreakdown(SemanticScore(similarity), keyword)
            && r.score == AdjustForLength(BaseScore(SemanticScore(similarity), keyword), WordCount(cc, resumeText))
            && r.strengths == Strengths(|ImportantSet(Tokens(cc, jdText)) * Tokens(cc, resumeText)|)
  {
    FoundCount(jdOrder, Tokens(cc, jdText), Tokens(cc, resumeText));
  }

  /** Two runs on the same inputs that iterate the JD token set in different
      orders agree on everything but the order of the keyword lists. */
  lemma AnalyzeOrderIndependent(cc: CharClass, resumeText: string, jdText: string, similarity: real,
                                order1: seq<string>, order2: seq<string>)
    requires Enumerates(order1, Tokens(cc, jdText)) && Enumerates(order2, Tokens(cc, jdText))
    ensures var r1 := Analyze(cc, resumeText, jdText, similarity, order1);
            var r2 := Analyze(cc, resumeText, jdText, similarity, order2);
            r1.score == r2.score && r1.breakdown == r2.breakdown && r1.strengths == r2.strengths
  {
    AnalyzeScores(cc, resumeText, jdText, similarity, order1);
    AnalyzeScores(cc, resumeText, jdText, similarity, order2);
  }

  /** The keyword sub-score is 100 exactly when the JD has an important
      keyword and the resume contains all of them, and 0 when the JD has
      none. */
  lemma KeywordMatchExtremes(cc: CharClass, resumeText: string, jdText: string, similarity: real, jdOrder: seq<string>)
    requires Enumerates(jdOrder, Tokens(cc, jdText))
    ensures var r := Analyze(cc, resumeText, jdText, similarity, jdOrder);
            var important := ImportantSet(Tokens(cc, jdText));
            && (r.breakdown.keywordMatch == 100 <==> important != {} && important <= Tokens(cc, resumeText))
            && (important == {} ==> r.breakdown.keywordMatch == 0)
  {
    var important := ImportantSet(Tokens(cc, jdText));
    var resumeTokens := Tokens(cc, resumeText);
    AnalyzeScores(cc, resumeText, jdText, similarity, jdOrder);
    CoveredCount(important, resumeTokens);
    var k := KeywordScore(|important * resumeTokens|, |important|);
    assert Trunc(k) == 100 <==> k == 100.0;
  }

  /** The third strength line reads "Successfully matched <n> core industry
      terms" with `n` written in decimal. */
  lemma StrengthsSpec(n: nat)
    ensures var line := Strengths(n)[2];
            && StrengthsPrefix <= line
            && |line| > |StrengthsPrefix| + |StrengthsSuffix|
            && line[|line| - |StrengthsSuffix|..] == StrengthsSuffix
            && (var digits := line[|StrengthsPrefix|..|line| - |StrengthsSuffix|];
                (forall k :: 0 <= k < |digits| ==> IsDigit(digits[k]))
                && DecimalValue(digits) == n)
  {
    var line := Strengths(n)[2];
    var d := Decimal(n);
    assert line == StrengthsPrefix + d + StrengthsSuffix;
    assert line[|StrengthsPrefix|..|line| - |StrengthsSuffix|] == d;
    assert line[|line| - |StrengthsSuffix|..] == StrengthsSuffix;
  }

  /** The first improvement line names the first three missing keywords,
      comma-separated, beginning with the first one; with none missing it is
      the bare prefix. */
  lemma ImprovementsSpec(missing: seq<string>)
    ensures var line := Improvements(missing)[0];
            && line == MissingPrefix + Join(", ", Take(missing, NamedMissing))
            && (missing == [] ==> line == MissingPrefix)
            && (|missing| == 1 ==> line == MissingPrefix + missing[0])
            && (missing != [] ==> MissingPrefix + missing[0] <= line)
  {
    if missing != [] {
      var shown := Take(missing, NamedMissing);
      assert shown[0] == missing[0];
      var j := Join(", ", shown);
      assert shown[0] <= j;
      assert MissingPrefix + shown[0] <= MissingPrefix + j;
    }
  }

  /** An empty resume (as when the upload is neither PDF nor DOCX) has no
      words, so it matches no keyword, is always penalised, and scores
      between 10 and 30. */
  lemma EmptyResume(cc: CharClass, jdText: string, similarity: real, jdOrder: seq<string>)
    requires Enumerates(jdOrder, Tokens(cc, jdText))
    ensures var r := Analyze(cc, "", jdText, similarity, jdOrder);
            && r.keywords.present == []
            && r.breakdown.keywordMatch == 0
            && r.score == AdjustForLength(BaseScore(SemanticScore(similarity), 0.0), 0)
            && PenaltyFloor <= r.score <= 30
  {
    EmptyText(cc);
    RespondToEmpty(SemanticScore(similarity), ImportantKeywords(jdOrder));
  }

  /** A worked example: the JD "Looking for a Python developer with strong
      backend experience", whose tokens longer than four characters are
      listed in `important`, against a resume whose tokens are those of
      "Experienced backend developer skilled in Python and distributed
      systems". Tokens match exactly, so "experience" is not found in
      "experienced": three of six important keywords match and the keyword
      sub-score is 50. */
  lemma WorkedExample(semantic: real, wordCount: nat)
    ensures var important := ["looking", "python", "developer", "strong", "backend", "experience"];
            var resumeTokens := {"experienced", "backend", "developer", "skilled", "python", "and", "distributed", "systems"};
            var r := Respond(semantic, wordCount, important, resumeTokens);
            && r.keywords.present == ["python", "developer", "backend"]
            && r.keywords.missing == ["looking", "strong", "experience"]
            && r.breakdown.keywordMatch == 50
  {
    var important := ["looking", "python", "developer", "strong", "backend", "experience"];
    var resumeTokens := {"experienced", "backend", "developer", "skilled", "python", "and", "distributed", "systems"};
    ExampleFound();
    ExampleMissing();
    assert KeywordScore(3, 6) == 50.0;
  }
}
