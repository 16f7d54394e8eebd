/** The arithmetic of the score: the semantic clamp, the keyword
    percentage, the 60/40 composite, the low-content penalty and Python's
    `int()`. Scores are exact reals; see README for what that leaves out. */
module Scoring {

  /** Weight of the semantic score in the composite. */
  const SemanticWeight: real := 0.6
  /** Weight of the keyword score in the composite. */
  const KeywordWeight: real := 0.4
  /** A resume with fewer whitespace-separated words is penalised. */
  const MinWordCount: nat := 100
  /** Points taken off a low-content resume. */
  const Penalty: int := 30
  /** A penalised score is never below this. */
  const PenaltyFloor: int := 10

  function Min(a: real, b: real): real { if a <= b then a else b }
  function Max(a: real, b: real): real { if a >= b then a else b }

  /** Python's `int()` on a float: truncation toward zero. */
  function Trunc(x: real): (n: int)
    ensures 0.0 <= x ==> 0 <= n && n as real <= x < n as real + 1.0
    ensures x < 0.0 ==> n <= 0 && n as real - 1.0 < x <= n as real
  {
    if x >= 0.0 then x.Floor else -((-x).Floor)
  }

  /** `max(0, min(100, x))`. */
  function ClampPercent(x: real): (r: real)
    ensures 0.0 <= r <= 100.0
    ensures 0.0 <= x <= 100.0 ==> r == x
    ensures x < 0.0 ==> r == 0.0
    ensures x > 100.0 ==> r == 100.0
  {
    Max(0.0, Min(100.0, x))
  }

  /** The cosine similarity of the two embeddings, as a percentage clamped
      to [0, 100]. */
  function SemanticScore(similarity: real): (r: real)
    ensures 0.0 <= r <= 100.0
    ensures 0.0 <= similarity <= 1.0 ==> r == similarity * 100.0
    ensures similarity <= 0.0 ==> r == 0.0
    ensures similarity >= 1.0 ==> r == 100.0
  {
    ClampPercent(similarity * 100.0)
  }

  /** Clamping again changes nothing. */
  lemma ClampIdempotent(x: real)
    ensures ClampPercent(ClampPercent(x)) == ClampPercent(x)
  {
  }

  /** `(found / total) * 100 if total else 0`: the percentage of the
      important keywords that the resume contains. */
  function KeywordScore(found: nat, total: nat): (r: real)
    ensures total == 0 || found == 0 ==> r == 0.0
    ensures total > 0 ==> r * (total as real) == 100.0 * (found as real)
    ensures r >= 0.0
    ensures found <= total ==> r <= 100.0
    ensures found <= total ==> (r == 100.0 <==> total > 0 && found == total)
  {
    if total > 0 then (found as real / total as real) * 100.0 else 0.0
  }

  /** `int(semantic * 0.6 + keyword * 0.4)`: the score before the
      low-content adjustment. */
  function BaseScore(semantic: real, keyword: real): (n: int)
    ensures 0.0 <= semantic && 0.0 <= keyword ==>
              n as real <= semantic * SemanticWeight + keyword * KeywordWeight < n as real + 1.0
    ensures 0.0 <= semantic <= 100.0 && 0.0 <= keyword <= 100.0 ==> 0 <= n <= 100
    ensures 0.0 <= semantic <= 100.0 && 0.0 <= keyword <= 100.0 ==>
              (n == 100 <==> semantic == 100.0 && keyword == 100.0)
  {
    Trunc(semantic * SemanticWeight + keyword * KeywordWeight)
  }

  /** The composite never decreases when either input increases. */
  lemma BaseScoreMonotone(s1: real, k1: real, s2: real, k2: real)
    requires s1 <= s2 && k1 <= k2
    requires 0.0 <= s1 && 0.0 <= k1
    ensures BaseScore(s1, k1) <= BaseScore(s2, k2)
  {
    var x1 := s1 * SemanticWeight + k1 * KeywordWeight;
    var x2 := s2 * SemanticWeight + k2 * KeywordWeight;
    assert x1 <= x2;
  }

  /** The low-content rule: a resume of fewer than 100 words loses 30 points
      but keeps at least 10; any other resume keeps its score. */
  function AdjustForLength(base: int, wordCount: nat): (n: int)
    ensures wordCount >= MinWordCount ==> n == base
    ensures wordCount < MinWordCount ==> n >= PenaltyFloor
    ensures wordCount < MinWordCount ==> (n < base <==> base > PenaltyFloor)
    ensures wordCount < MinWordCount ==> (n > base <==> base < PenaltyFloor)
    ensures wordCount < MinWordCount && base >= PenaltyFloor + Penalty ==> n == base - Penalty
    ensures wordCount < MinWordCount && base <= PenaltyFloor + Penalty ==> n == PenaltyFloor
    ensures 0 <= base <= 100 ==> 0 <= n <= 100
  {
    if wordCount < MinWordCount then
      (if PenaltyFloor >= base - Penalty then PenaltyFloor else base - Penalty)
    else base
  }

  /** Without keyword credit the composite is at most 60, so a penalised
      resume then scores between 10 and 30. */
  lemma NoKeywordScore(semantic: real)
    requires 0.0 <= semantic <= 100.0
    ensures BaseScore(semantic, 0.0) <= 60
    ensures PenaltyFloor <= AdjustForLength(BaseScore(semantic, 0.0), 0) <= 30
  {
    assert semantic * SemanticWeight + 0.0 * KeywordWeight <= 60.0;
  }
}
