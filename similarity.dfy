/** The relevance scorer of the search utility: `containsAllWords` and
    `calculateSimilarity`. Scores are reals in [0, 100]. */
module Scorer {
  import opened Text
  import opened Levenshtein

  /** `containsAllWords(a, b)`: every word of `b` occurs in `a`, both lower-cased. */
  predicate ContainsAllWords(a: string, b: string) {
    var aLower := ToLower(a);
    var bWords := Words(ToLower(b));
    forall k :: 0 <= k < |bWords| ==> Contains(aLower, bWords[k])
  }

  /** Including the whole of `b` implies including each of its words: the
      100-point case of the scorer lies inside the 80-point case. */
  lemma ContainsImpliesAllWords(a: string, b: string)
    requires Contains(ToLower(a), ToLower(b))
    ensures ContainsAllWords(a, b)
  {
    var bWords := Words(ToLower(b));
    WordsOccur(ToLower(b));
    ContainsAll(ToLower(a), ToLower(b), bWords);
  }

  /** The contribution of one (query word, text word) pair to `matchCount`. */
  function PairScore(queryWord: string, textWord: string): (r: real)
    ensures r == 0.0 || r == 0.5 || r == 1.0
    ensures r == 1.0 <==> textWord == queryWord
  {
    if textWord == queryWord then 1.0
    else if Contains(textWord, queryWord) || Contains(queryWord, textWord) then 0.5
    else 0.0
  }

  /** What the inner loop adds to `matchCount` for one query word. */
  function RowScore(queryWord: string, textWords: seq<string>): (r: real)
    ensures 0.0 <= r <= |textWords| as real
    decreases |textWords|
  {
    if textWords == [] then 0.0
    else RowScore(queryWord, textWords[..|textWords| - 1]) + PairScore(queryWord, textWords[|textWords| - 1])
  }

  /** `matchCount` after both loops. */
  function MatchCount(queryWords: seq<string>, textWords: seq<string>): (r: real)
    ensures 0.0 <= r
    decreases |queryWords|
  {
    if queryWords == [] then 0.0
    else MatchCount(queryWords[..|queryWords| - 1], textWords) + RowScore(queryWords[|queryWords| - 1], textWords)
  }

  /** `s.toLowerCase().trim()` */
  function Normalize(s: string): string {
    Trim(ToLower(s))
  }

  function RealMin(x: real, y: real): (m: real)
    ensures m <= x && m <= y && (m == x || m == y)
  {
    if x <= y then x else y
  }

  /** A fraction `n / m` of 40 with `0 <= n <= m` lies in [0, 40]. */
  lemma ScaledFraction(n: int, m: int)
    requires 0 <= n <= m && 0 < m
    ensures 0.0 <= (n as real) / (m as real) * 40.0 <= 40.0
  {
    var x := (n as real) / (m as real);
    assert x * (m as real) == n as real;
  }

  /** The 0..40 signal: how close the two strings are in edit distance. */
  function DistanceScore(q: string, t: string): (r: real)
    ensures 0.0 <= r <= 40.0
  {
    var maxLen := Max(|q|, |t|);
    DistBounds(q, t);
    if maxLen > 0 then
      ScaledFraction(maxLen - Dist(q, t), maxLen);
      ((maxLen - Dist(q, t)) as real) / (maxLen as real) * 40.0
    else 0.0
  }

  /** The 0..60-per-word signal: average word match, scaled by 60. */
  function WordScore(q: string, t: string): (r: real)
    ensures r >= 0.0
  {
    var queryWords := Words(q);
    if |queryWords| > 0 then MatchCount(queryWords, Words(t)) / (|queryWords| as real) * 60.0 else 0.0
  }

  /** `calculateSimilarity(query, text)`: 0 for an empty argument; 100 when
      the normalised text contains the normalised query; 80 when it contains
      every query word; otherwise the clamped blend of the two signals. */
  function Similarity(query: string, text: string): (r: real)
    ensures 0.0 <= r <= 100.0
    ensures query == [] || text == [] ==> r == 0.0
    ensures query != [] && text != [] && Contains(Normalize(text), Normalize(query)) ==> r == 100.0
    ensures (query != [] && text != [] && !Contains(Normalize(text), Normalize(query)) &&
             ContainsAllWords(Normalize(text), Normalize(query))) ==> r == 80.0
  {
    if query == [] || text == [] then 0.0
    else
      var q := Normalize(query);
      var t := Normalize(text);
      if Contains(t, q) then 100.0
      else if ContainsAllWords(t, q) then 80.0
      else RealMin(100.0, WordScore(q, t) + DistanceScore(q, t))
  }

  /** A non-empty query scores 100 against itself. */
  lemma SimilaritySelf(q: string)
    requires q != []
    ensures Similarity(q, q) == 100.0
  {
    ContainsSelf(Normalize(q));
  }

  /** The nested loops of `calculateSimilarity` accumulating `matchCount`:
      1 per exact word match, 0.5 per partial (substring either way) match. */
  method CountMatches(queryWords: seq<string>, textWords: seq<string>) returns (matchCount: real)
    ensures matchCount == MatchCount(queryWords, textWords)
  {
    matchCount := 0.0;
    for i := 0 to |queryWords|
      invariant matchCount == MatchCount(queryWords[..i], textWords)
    {
      var queryWord := queryWords[i];
      for j := 0 to |textWords|
        invariant matchCount == MatchCount(queryWords[..i], textWords) + RowScore(queryWord, textWords[..j])
      {
        var textWord := textWords[j];
        assert textWords[..j + 1][..j] == textWords[..j];
        if textWord == queryWord {
          matchCount := matchCount + 1.0;
          continue;
        }
        if Contains(textWord, queryWord) || Contains(queryWord, textWord) {
          matchCount := matchCount + 0.5;
        }
      }
      assert textWords[..|textWords|] == textWords;
      assert queryWords[..i + 1][..i] == queryWords[..i];
    }
    assert queryWords[..|queryWords|] == queryWords;
  }

  /** The word-overlap part of `calculateSimilarity`: split both strings
      into words, count matches, scale the average per query word by 60. */
  method WordOverlapScore(q: string, t: string) returns (wordScore: real)
    ensures wordScore == WordScore(q, t)
  {
    var queryWords := Words(q);
    var textWords := Words(t);
    var matchCount := CountMatches(queryWords, textWords);
    wordScore := if |queryWords| > 0 then (matchCount / (|queryWords| as real)) * 60.0 else 0.0;
  }

  /** The edit-distance part of `calculateSimilarity`: one minus the
      distance relative to the longer length, scaled by 40. */
  method EditDistanceScore(q: string, t: string) returns (distanceScore: real)
    ensures distanceScore == DistanceScore(q, t)
  {
    var maxLen := Max(|q|, |t|);
    var distance := LevenshteinDistance(q, t);
    distanceScore := if maxLen > 0 then ((maxLen - distance) as real / maxLen as real) * 40.0 else 0.0;
  }

  /** The scorer as the source runs it: lower-case and trim, the two
      short-circuits, then the blend of the word-overlap and edit-distance
      signals, clamped to 100. */
  method CalculateSimilarity(query: string, text: string) returns (r: real)
    ensures r == Similarity(query, text)
  {
    if query == [] || text == [] { return 0.0; }
    var queryLower := Normalize(query);
    var textLower := Normalize(text);
    if Contains(textLower, queryLower) { return 100.0; }
    if ContainsAllWords(textLower, queryLower) { return 80.0; }
    var wordScore := WordOverlapScore(queryLower, textLower);
    var distanceScore := EditDistanceScore(queryLower, textLower);
    r := RealMin(100.0, wordScore + distanceScore);
  }
}
