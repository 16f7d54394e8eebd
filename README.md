# ATS resume checker: the scoring core

A Dafny model of the scoring done by the `/analyze` handler of the ATS
resume checker (`app.py`). The handler gets a resume and a job description
(JD). It combines two scores. The semantic score is a cosine similarity
computed by an embedding model, scaled to a percentage and clamped to
[0, 100]. The keyword score is the percentage of the JD's important
keywords that the resume contains. An important keyword is a lower-cased
word token of at least three characters that is longer than four
characters. The final score is `int(0.6 * semantic + 0.4 * keyword)`. A
resume of fewer than 100 whitespace-separated words is then penalised:
30 points come off, but the score never drops below 10. The response also
has a fixed-shape breakdown, three strengths and three improvements lines,
and the first ten found and missing keywords.

Modules, one per concern of `analyze`:

- `Text` (`text.dfy`): lower-casing, the tokenizer `re.findall(r'\b\w{3,}\b', text.lower())`
  turned into a set, and `str.split()` for the word count. Both scans are
  one function, `RunsFrom`, which returns the maximal runs of characters that
  satisfy a test. Its members are proved to be exactly the maximal runs
  (against a reference definition of "maximal run"), and its length is proved
  to be the number of positions where such a run starts.
  The character tables (`\w`, per-character lower-casing, whitespace) are a
  `CharClass` argument. Every result holds for every choice of tables.
- `Keywords` (`keywords.dfy`): the important-keyword filter and the
  `found`/`missing` partition. Python builds these lists by iterating over a
  set, in an order the language leaves open. The model takes that order as
  an input, `jdOrder`: any list of the JD tokens without repetition
  (`Enumerates`). The lemmas hold for every such order.
- `Scoring` (`scoring.dfy`): the clamp, the keyword percentage, the 60/40
  composite with Python's `int()` (truncation toward zero), and the
  low-content adjustment.
- `Report` (`report.dfy`): the response. `Respond` builds it from the scores
  and keyword lists. `Analyze` is the whole computation from the two texts.

A worked example: the JD "Looking for a Python developer with strong backend
experience" against the resume "Experienced backend developer skilled in Python
and distributed systems". Matching compares whole lower-cased tokens, so the
resume token "experienced" does not match the JD keyword "experience". Three of
the six important keywords match, and the keyword score is 50
(`Report.WorkedExample`).

## Model

| member | source | states |
|---|---|---|
| `Text.RunsFromSpec` | app.py:42-43 | A string is among the runs the left-to-right scan returns iff it is one of the maximal runs of matching characters, at least `minLen` long, that start at or after the scan's start. This is what `\b\w{3,}\b` matches. |
| `Text.TokensSpec` | app.py:42-43 | A string is in the token set of a text iff it is a maximal run of word characters of the lower-cased text, at least 3 long. |
| `Text.TokenShape` | app.py:42-43 | Every token is at least 3 characters long and is made only of word characters. Each of its characters is the lower-cased form of a character of the text. When lower-casing is idempotent, lower-casing leaves the token unchanged. |
| `Text.RunsFromCount` | app.py:55 | The scan returns as many entries as there are maximal runs of at least `minLen` characters starting at or after the scan's start: one entry per run. |
| `Text.SplitWhitespaceSpec` | app.py:55 | A string is among the words of `str.split()` iff it is a maximal whitespace-free stretch of the text. Each is non-empty and has no whitespace character. |
| `Text.WordCountSpec` | app.py:55 | `len(text.split())` equals the number of positions holding a non-whitespace character that starts the text or follows whitespace. |
| `Text.EmptyText` | app.py:42-43 | An empty text has no tokens and a word count of 0. |
| `Keywords.ImportantKeywords` | app.py:44 | The result holds exactly the listed JD tokens longer than 4 characters, in their order (a subsequence). |
| `Keywords.ImportantKeywordsSpec` | app.py:44 | For any iteration order of the JD token set, the important keywords have no repetition. They are exactly the JD tokens longer than 4 characters. |
| `Keywords.Found` | app.py:46 | `found` holds exactly the important keywords that are in the resume's token set, in their order (a subsequence). |
| `Keywords.Missing` | app.py:47 | `missing` holds exactly the important keywords that are not in the resume's token set, in their order (a subsequence). |
| `Keywords.PartitionSpec` | app.py:46-47 | `found` and `missing` are disjoint. Together they cover the important keywords. Their lengths add up to the number of important keywords. |
| `Keywords.PartitionDistinct` | app.py:46-47 | Over keywords without repetition, neither `found` nor `missing` repeats an element. |
| `Keywords.FoundCount` | app.py:44-48 | The number of important keywords is the size of the set of JD tokens longer than 4. The number found is the size of that set's intersection with the resume's tokens. So neither depends on the iteration order. |
| `Keywords.KeywordLists` | app.py:44-47 | Every found keyword is a JD token longer than 4 that the resume contains, and conversely. Every missing one is a JD token longer than 4 that the resume lacks, and conversely. |
| `Keywords.CoveredCount` | app.py:46-48 | The resume holds at most all the important keywords. It holds all of them iff the important set is a subset of the resume's tokens. |
| `Keywords.FoundNothing` | app.py:46 | Against an empty token set, nothing is found. |
| `Keywords.ExampleFound` | app.py:46 | In the worked example, the found keywords are python, developer and backend. |
| `Keywords.ExampleMissing` | app.py:47 | In the worked example, the missing keywords are looking, strong and experience ("experienced" does not match). |
| `Scoring.Trunc` | app.py:52 | `int()` truncates toward zero. For x ≥ 0 the result n satisfies n ≤ x < n + 1. For x < 0 it satisfies n − 1 < x ≤ n. |
| `Scoring.ClampPercent` | app.py:39 | The result lies in [0, 100]. It equals the input when the input is already in range, and is 0 below and 100 above. |
| `Scoring.SemanticScore` | app.py:38-39 | For any similarity, the semantic score lies in [0, 100]. It is 100 times the similarity when the similarity is in [0, 1]. |
| `Scoring.ClampIdempotent` | app.py:39 | Clamping twice is the same as clamping once. |
| `Scoring.KeywordScore` | app.py:48 | The score is 0 when there are no important keywords (no division by zero). Otherwise score × total = 100 × found. When found ≤ total it lies in [0, 100]. It is 100 iff total > 0 and every keyword was found. |
| `Scoring.BaseScore` | app.py:52 | For non-negative inputs the result n is the floor of 0.6 × semantic + 0.4 × keyword: n ≤ that sum < n + 1. With both inputs in [0, 100], the composite lies in [0, 100]. It is 100 iff both inputs are 100. |
| `Scoring.BaseScoreMonotone` | app.py:52 | The composite never decreases when either input increases. |
| `Scoring.AdjustForLength` | app.py:55-56 | With 100 words or more the score is unchanged. Below 100 words it is at least 10. It drops iff the base is above 10 and rises iff the base is below 10. It is base − 30 when the base is at least 40, and 10 when the base is at most 40: max(10, base − 30). It stays in [0, 100]. |
| `Scoring.NoKeywordScore` | app.py:52-56 | With no keyword credit, the composite is at most 60. A penalised score then lies in [10, 30]. |
| `Report.Take` | app.py:73 | `xs[:n]` is a prefix of `xs` with at most n elements. It is all of `xs` when `xs` is short enough. |
| `Report.Join` | app.py:73 | `sep.join(xs)` is empty for no items and is the item itself for one item. For two and three items (the lengths `missing[:3]` can have beyond one) it is the items with the separator between them. Any longer join starts with the first item followed by the separator. |
| `Report.Decimal` | app.py:70 | `str(n)` is a non-empty string of digits with no leading zero, and it denotes n. |
| `Report.MakeBreakdown` | app.py:60-66 | For non-negative scores, Semantic Match and Keyword Match are the truncations of the semantic and keyword scores (m ≤ score < m + 1). With the scores in [0, 100], every sub-score is in [0, 100]. Experience Match is Semantic Match + 5, capped at 100. Education is 95 and Formatting is 90. |
| `Report.StrengthsSpec` | app.py:70 | The third strength is "Successfully matched ", then the decimal digits of n, then " core industry terms". |
| `Report.ImprovementsSpec` | app.py:73 | The first improvement is the prefix followed by the first three missing keywords, comma-joined. With nothing missing it is the bare prefix. Otherwise it starts with the first missing keyword. |
| `Report.Respond` | app.py:48-80 | The score is in [0, 100], and below 100 words it is at least 10. The breakdown is bounded and has its constants. The evidence lists are `found[:10]` and `missing[:10]`, so at most 10 items each. Present keywords are important and in the resume. Missing ones are important and not in the resume. |
| `Report.StrengthsCount` | app.py:70 | The number in the third strength line is the number of keywords found. |
| `Report.MissingMessage` | app.py:73 | The first improvement is the bare prefix when the resume has every important keyword. Otherwise it starts with an important keyword the resume lacks. |
| `Report.RespondToEmpty` | app.py:46-56 | A resume with no tokens and no words matches nothing and gets a keyword score of 0. It is penalised and scores between 10 and 30. |
| `Report.Analyze` | app.py:35-80 | For all inputs the score lies in [0, 100]. With fewer than 100 words it is at least 10. The breakdown lies in [0, 100] and Education = 95, Formatting = 90. The present and missing lists are the first 10 of `found` and `missing` computed over the given iteration order. Each entry is a JD token longer than 4 that is in (present) or not in (missing) the resume's token set. |
| `Report.AnalyzeScores` | app.py:39-70 | The breakdown, the score and the strengths are functions of the token sets alone. The keyword score is the set-based percentage, and the score is the composite adjusted for word count. |
| `Report.AnalyzeOrderIndependent` | app.py:44-70 | Two iteration orders of the JD token set give the same score, breakdown and strengths. |
| `Report.KeywordMatchExtremes` | app.py:48-62 | Keyword Match is 100 iff the JD has an important keyword and the resume contains all of them. It is 0 when the JD has none. |
| `Report.EmptyResume` | app.py:23-56 | An empty resume text, which is what an unsupported upload produces, has no present keywords and Keyword Match 0. It is always penalised and scores between 10 and 30. |
| `Report.WorkedExample` | app.py:42-62 | For the worked example's JD keywords and resume tokens, present is [python, developer, backend], missing is [looking, strong, experience], and Keyword Match is 50. |

## Left out

- `extract_text` (app.py:16-23): PDF and DOCX parsing is done by libraries that are not part of this model. The resume text is an input. Only the empty text it returns for other file types is considered (`Report.EmptyResume`).
- The embedding model and `util.cos_sim` (app.py:14, 37-38): the similarity is an input `real`, which is then scaled and clamped.
- The Flask route, CORS, form parsing, `jsonify`, and the 400 "Missing file or JD" guard (app.py:1-2, 9-10, 25-31, 58, 83-84). These are HTTP transport. `Analyze` accepts any JD text.
- The unused `TfidfVectorizer` import (app.py:7).
- Floating point: scores are exact reals. Python's float rounding of `len(found)/len(important)*100`, `similarity*100` and the 0.6/0.4 weights is not modelled. Neither are NaN similarities.
- Unicode tables: `\w`, whitespace and lower-casing are an arbitrary `CharClass`. A lower-casing that changes the length of a string (one character becoming two) or depends on context (Greek capital sigma becomes final sigma at the end of a word) cannot be expressed with a per-character map.
- `Text.SplitWhitespaceSpec`, `Text.WordCountSpec`: together they fix the words of `str.split()` and how many there are, not the order in which they are listed. Only the count is used by the score.
- Set iteration order: Python does not fix it. The model takes it as the input `jdOrder` and proves that scores do not depend on it. The order of the `present`/`missing` lists is whatever that order gives.
- `Keywords.ExampleFound`, `Keywords.ExampleMissing`, `Report.WorkedExample`: the worked example starts from the token lists of the two sentences, not from the sentences themselves.
- The first two strengths and the last two improvements are fixed strings, with no logic to model beyond their presence.
