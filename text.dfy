/** Text handling used by the scorer: lower-casing, the word tokenizer
    (`re.findall(r'\b\w{3,}\b', text.lower())`) and whitespace splitting
    (`str.split()` with no separator).

    Which characters are "word" characters, which are whitespace and how a
    character is lower-cased are Unicode tables of the host language; they
    are passed in as a `CharClass`, and everything proved here holds for
    every choice of the three tables. */
module Text {

  /** The character tables the scorer depends on:
      `isWord` is the regex class `\w` (it also decides `\b`),
      `lower` is per-character lower-casing, and
      `isSpace` is the whitespace test `str.split()` splits on. */
  datatype CharClass = CharClass(isWord: char -> bool, lower: char -> char, isSpace: char -> bool)

  /** `[i, j)` is a non-empty run of `p`-characters of `s` that cannot be
      extended to the left or to the right. */
  ghost predicate IsMaximalRun(s: string, p: char -> bool, i: int, j: int)
  {
    && 0 <= i < j <= |s|
    && (forall k :: i <= k < j ==> p(s[k]))
    && (i == 0 || !p(s[i - 1]))
    && (j == |s| || !p(s[j]))
  }

  /** Position `i` is not strictly inside a run of `p`-characters. */
  ghost predicate AtRunBoundary(s: string, p: char -> bool, i: int)
    requires 0 <= i <= |s|
  {
    i == 0 || i == |s| || !p(s[i - 1]) || !p(s[i])
  }

  /** The end of the run of `p`-characters that starts at `i`. */
  function RunEnd(s: string, p: char -> bool, i: nat): (j: nat)
    requires i <= |s|
    ensures i <= j <= |s|
    ensures forall k :: i <= k < j ==> p(s[k])
    ensures j == |s| || !p(s[j])
    ensures i < |s| && p(s[i]) ==> i < j
    decreases |s| - i
  {
    if i < |s| && p(s[i]) then RunEnd(s, p, i + 1) else i
  }

  /** Scans `s` from position `i` left to right and returns, in order, every
      maximal run of `p`-characters whose length is at least `minLen`. With
      `p` the word test and `minLen` 3 this is what `\b\w{3,}\b` matches:
      `\b` only lets a match start where a run starts, and the greedy
      `\w{3,}` then takes the whole run, which ends at a `\b`. */
  function RunsFrom(s: string, p: char -> bool, minLen: nat, i: nat): (r: seq<string>)
    requires i <= |s|
    decreases |s| - i
  {
    if i == |s| then []
    else if !p(s[i]) then RunsFrom(s, p, minLen, i + 1)
    else
      var j := RunEnd(s, p, i);
      (if j - i >= minLen then [s[i..j]] else []) + RunsFrom(s, p, minLen, j)
  }

  /** The runs of one scan are exactly the maximal runs of length at least
      `minLen` that start at or after the scan's starting point. */
  lemma {:induction false} RunsFromSpec(s: string, p: char -> bool, minLen: nat, i: nat, t: string)
    requires i <= |s| && AtRunBoundary(s, p, i)
    ensures t in RunsFrom(s, p, minLen, i) <==>
              exists a, b :: i <= a && IsMaximalRun(s, p, a, b) && b - a >= minLen && t == s[a..b]
    decreases |s| - i
  {
    if i == |s| {
    } else if !p(s[i]) {
      RunsFromSpec(s, p, minLen, i + 1, t);
      if exists a, b :: i <= a && IsMaximalRun(s, p, a, b) && b - a >= minLen && t == s[a..b] {
        var a, b :| i <= a && IsMaximalRun(s, p, a, b) && b - a >= minLen && t == s[a..b];
        assert i + 1 <= a;
      }
    } else {
      var j := RunEnd(s, p, i);
      RunsFromSpec(s, p, minLen, j, t);
      assert IsMaximalRun(s, p, i, j);
      if exists a, b :: i <= a && IsMaximalRun(s, p, a, b) && b - a >= minLen && t == s[a..b] {
        var a, b :| i <= a && IsMaximalRun(s, p, a, b) && b - a >= minLen && t == s[a..b];
        if a < j {
          // a run cannot start inside another one, and ends where it ends
          assert a == i;
          assert b == j;
        }
      }
    }
  }

  /** `a` is where a run of `p`-characters starts. */
  ghost predicate IsRunStart(s: string, p: char -> bool, a: int)
  {
    0 <= a < |s| && p(s[a]) && (a == 0 || !p(s[a - 1]))
  }

  /** The starting positions, at or after `i`, of the runs of at least
      `minLen` `p`-characters. */
  ghost function RunStarts(s: string, p: char -> bool, minLen: nat, i: nat): set<int>
  {
    set a | i <= a < |s| && IsRunStart(s, p, a) && RunEnd(s, p, a) - a >= minLen
  }

  /** No run starts at a position that is not a `p`-character. */
  lemma RunStartsSkip(s: string, p: char -> bool, minLen: nat, i: nat)
    requires i < |s| && !p(s[i])
    ensures RunStarts(s, p, minLen, i) == RunStarts(s, p, minLen, i + 1)
  {
  }

  /** From the start `i` of a run ending at `j`, the run starts are `i`
      itself (when the run is long enough) and those from `j` on. */
  lemma RunStartsSplit(s: string, p: char -> bool, minLen: nat, i: nat, j: nat)
    requires i < j <= |s| && IsRunStart(s, p, i) && j == RunEnd(s, p, i)
    ensures RunStarts(s, p, minLen, i) ==
              (if j - i >= minLen then {i} else {}) + RunStarts(s, p, minLen, j)
    ensures i !in RunStarts(s, p, minLen, j)
  {
    forall a | a in RunStarts(s, p, minLen, i) && a != i
      ensures a in RunStarts(s, p, minLen, j)
    {
      if a < j {
        assert p(s[a - 1]);
      }
    }
  }

  /** The scan returns one entry per run: as many as there are runs of at
      least `minLen` characters starting at or after `i`. */
  lemma {:induction false} RunsFromCount(s: string, p: char -> bool, minLen: nat, i: nat)
    requires i <= |s| && AtRunBoundary(s, p, i)
    ensures |RunsFrom(s, p, minLen, i)| == |RunStarts(s, p, minLen, i)|
    decreases |s| - i
  {
    if i == |s| {
      assert RunStarts(s, p, minLen, i) == {};
    } else if !p(s[i]) {
      RunsFromCount(s, p, minLen, i + 1);
      RunStartsSkip(s, p, minLen, i);
    } else {
      var j := RunEnd(s, p, i);
      RunsFromCount(s, p, minLen, j);
      RunStartsSplit(s, p, minLen, i, j);
    }
  }

  /** Lower-cases every character of `s`. */
  function LowerAll(cc: CharClass, s: string): (r: string)
    ensures |r| == |s|
    ensures forall k :: 0 <= k < |s| ==> r[k] == cc.lower(s[k])
  {
    seq(|s|, k requires 0 <= k < |s| => cc.lower(s[k]))
  }

  /** `re.findall(r'\b\w{3,}\b', text.lower())`: the words of the
      lower-cased text that are at least three characters long, in order. */
  function FindWords(cc: CharClass, text: string): seq<string>
  {
    RunsFrom(LowerAll(cc, text), cc.isWord, 3, 0)
  }

  /** `set(re.findall(r'\b\w{3,}\b', text.lower()))`. */
  function Tokens(cc: CharClass, text: string): set<string>
  {
    set t | t in FindWords(cc, text)
  }

  /** Reference definition of a token: a maximal run of word characters of
      the lower-cased text, at least three characters long. */
  ghost predicate IsToken(cc: CharClass, text: string, t: string)
  {
    var s := LowerAll(cc, text);
    exists a, b :: IsMaximalRun(s, cc.isWord, a, b) && b - a >= 3 && t == s[a..b]
  }

  /** The tokenizer yields exactly the reference tokens. */
  lemma TokensSpec(cc: CharClass, text: string, t: string)
    ensures t in Tokens(cc, text) <==> IsToken(cc, text, t)
  {
    var s := LowerAll(cc, text);
    RunsFromSpec(s, cc.isWord, 3, 0, t);
  }

  /** Every token is at least three characters long, is made of word
      characters only, and each of its characters is the lower-cased form of
      a character of the text; when lower-casing is idempotent the token is
      left unchanged by lower-casing. */
  lemma TokenShape(cc: CharClass, text: string, t: string)
    requires t in Tokens(cc, text)
    ensures |t| >= 3
    ensures forall k :: 0 <= k < |t| ==> cc.isWord(t[k])
    ensures forall k :: 0 <= k < |t| ==> exists m :: 0 <= m < |text| && t[k] == cc.lower(text[m])
    ensures (forall c :: cc.lower(cc.lower(c)) == cc.lower(c)) ==> LowerAll(cc, t) == t
  {
    TokensSpec(cc, text, t);
    var s := LowerAll(cc, text);
    var a, b :| IsMaximalRun(s, cc.isWord, a, b) && b - a >= 3 && t == s[a..b];
    forall k | 0 <= k < |t|
      ensures cc.isWord(t[k])
      ensures exists m :: 0 <= m < |text| && t[k] == cc.lower(text[m])
    {
      assert t[k] == s[a + k] == cc.lower(text[a + k]);
    }
  }

  /** The test `str.split()` applies to keep a character inside a word. */
  function NonSpace(cc: CharClass): char -> bool
  {
    c => !cc.isSpace(c)
  }

  /** `text.split()`: the maximal runs of non-whitespace characters, in order. */
  function SplitWhitespace(cc: CharClass, text: string): seq<string>
  {
    RunsFrom(text, NonSpace(cc), 1, 0)
  }

  /** `len(text.split())`. */
  function WordCount(cc: CharClass, text: string): nat
  {
    |SplitWhitespace(cc, text)|
  }

  /** Every piece `str.split()` returns is a non-empty, whitespace-free
      stretch of the text that is delimited by whitespace or the ends of the
      text, and every such stretch is returned. */
  lemma SplitWhitespaceSpec(cc: CharClass, text: string, w: string)
    ensures w in SplitWhitespace(cc, text) <==>
              exists a, b :: IsMaximalRun(text, NonSpace(cc), a, b) && w == text[a..b]
    ensures w in SplitWhitespace(cc, text) ==>
              w != [] && forall k :: 0 <= k < |w| ==> !cc.isSpace(w[k])
  {
    RunsFromSpec(text, NonSpace(cc), 1, 0, w);
    if w in SplitWhitespace(cc, text) {
      var a, b :| 0 <= a && IsMaximalRun(text, NonSpace(cc), a, b) && b - a >= 1 && w == text[a..b];
      assert 0 <= a < b <= |text| && |w| == b - a;
      forall k | 0 <= k < |w| ensures !cc.isSpace(w[k]) {
        assert w[k] == text[a + k];
        assert NonSpace(cc)(text[a + k]);
      }
    }
  }

  /** A word of `str.split()` starts at `a`: a non-whitespace character at
      the start of the text or right after whitespace. */
  ghost predicate WordStart(cc: CharClass, text: string, a: int)
    requires 0 <= a < |text|
  {
    !cc.isSpace(text[a]) && (a == 0 || cc.isSpace(text[a - 1]))
  }

  /** `len(text.split())` is the number of positions where a word starts:
      a non-whitespace character at the start of the text or right after
      whitespace. Together with `SplitWhitespaceSpec` this fixes the split
      up to order: each word appears once per occurrence. */
  lemma WordCountSpec(cc: CharClass, text: string)
    ensures WordCount(cc, text) == |set a | 0 <= a < |text| && WordStart(cc, text, a)|
  {
    var p := NonSpace(cc);
    RunsFromCount(text, p, 1, 0);
    assert RunStarts(text, p, 1, 0) == set a | 0 <= a < |text| && WordStart(cc, text, a);
  }

  /** An empty text has no tokens and no words. */
  lemma EmptyText(cc: CharClass)
    ensures Tokens(cc, "") == {}
    ensures WordCount(cc, "") == 0
  {
    assert LowerAll(cc, "") == "";
  }
}
