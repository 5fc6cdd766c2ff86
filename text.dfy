/** The string primitives the search utility relies on: lower-casing,
    trimming, substring search and splitting on runs of whitespace.
    Only ASCII is modelled: `toLowerCase` folds 'A'..'Z', and the
    whitespace class is space plus the control characters 9..13. */
module Text {

  predicate IsSpace(c: char) {
    c == ' ' || 9 <= c as int <= 13
  }

  function Lower(c: char): (r: char)
    ensures 'A' <= c <= 'Z' ==> r as int == c as int + 32
    ensures !('A' <= c <= 'Z') ==> r == c
  {
    if 'A' <= c <= 'Z' then (c as int + 32) as char else c
  }

  /** `s.toLowerCase()` */
  function ToLower(s: string): (r: string)
    ensures |r| == |s|
    ensures forall i :: 0 <= i < |s| ==> r[i] == Lower(s[i])
  {
    seq(|s|, i requires 0 <= i < |s| => Lower(s[i]))
  }

  function TrimStart(s: string): (r: string)
    ensures |r| <= |s| && r == s[|s| - |r|..]
    ensures forall i :: 0 <= i < |s| - |r| ==> IsSpace(s[i])
    ensures r == [] || !IsSpace(r[0])
  {
    if |s| > 0 && IsSpace(s[0]) then TrimStart(s[1..]) else s
  }

  function TrimEnd(s: string): (r: string)
    ensures |r| <= |s| && r == s[..|r|]
    ensures forall i :: |r| <= i < |s| ==> IsSpace(s[i])
    ensures r == [] || !IsSpace(r[|r| - 1])
  {
    if |s| > 0 && IsSpace(s[|s| - 1]) then TrimEnd(s[..|s| - 1]) else s
  }

  /** `s.trim()`: the input with its leading and trailing white space cut off. */
  function Trim(s: string): (r: string)
    ensures |r| <= |s|
    ensures r == [] || (!IsSpace(r[0]) && !IsSpace(r[|r| - 1]))
  {
    TrimEnd(TrimStart(s))
  }

  /** Trimming cuts only white space, and only from the two ends: the
      result is a slice of the input with nothing but white space around it. */
  lemma TrimCuts(s: string)
    ensures exists k :: CutAt(s, Trim(s), k)
  {
    var t := TrimStart(s);
    var r := Trim(s);
    var k := |s| - |t|;
    assert t == s[k..];
    assert r == t[..|r|];
    assert r == s[k..k + |r|];
    assert CutAt(s, r, k);
  }

  /** `r` is `s` with `k` characters of white space cut from the front and
      only white space cut from the back. */
  predicate CutAt(s: string, r: string, k: int) {
    && 0 <= k <= |s| - |r|
    && r == s[k..k + |r|]
    && (forall i :: 0 <= i < k ==> IsSpace(s[i]))
    && (forall i :: k + |r| <= i < |s| ==> IsSpace(s[i]))
  }

  predicate IsPrefix(p: string, s: string) {
    |p| <= |s| && s[..|p|] == p
  }

  /** `text.includes(pat)`: `pat` occurs in `text` at some position. */
  predicate Contains(text: string, pat: string)
    decreases |text|
  {
    IsPrefix(pat, text) || (|text| > 0 && Contains(text[1..], pat))
  }

  /** `pat` occurs in `text` starting at index `i`. */
  predicate OccursAt(text: string, pat: string, i: int) {
    0 <= i <= |text| - |pat| && text[i..i + |pat|] == pat
  }

  /** `includes` holds exactly when the pattern occurs at some index. */
  lemma {:induction false} ContainsAt(text: string, pat: string)
    ensures Contains(text, pat) <==> exists i :: OccursAt(text, pat, i)
    decreases |text|
  {
    if |text| > 0 {
      ContainsAt(text[1..], pat);
      if Contains(text, pat) {
        if IsPrefix(pat, text) {
          assert OccursAt(text, pat, 0);
        } else {
          var i :| OccursAt(text[1..], pat, i);
          assert text[1..][i..i + |pat|] == text[i + 1..i + 1 + |pat|];
          assert OccursAt(text, pat, i + 1);
        }
      }
      if exists i :: OccursAt(text, pat, i) {
        var i :| OccursAt(text, pat, i);
        if i > 0 {
          assert text[1..][i - 1..i - 1 + |pat|] == text[i..i + |pat|];
          assert OccursAt(text[1..], pat, i - 1);
        }
      }
    } else {
      if Contains(text, pat) {
        assert OccursAt(text, pat, 0);
      }
      if exists i :: OccursAt(text, pat, i) {
        var i :| OccursAt(text, pat, i);
        assert IsPrefix(pat, text);
      }
    }
  }

  /** A string included in one included in `a` is included in `a`. */
  lemma ContainsTrans(a: string, b: string, c: string)
    requires Contains(a, b) && Contains(b, c)
    ensures Contains(a, c)
  {
    ContainsAt(a, b);
    ContainsAt(b, c);
    ContainsAt(a, c);
    var i :| OccursAt(a, b, i);
    var j :| OccursAt(b, c, j);
    forall m | 0 <= m < |c| ensures a[i + j + m] == c[m] {
      assert c[m] == b[j + m];
    }
    assert a[i + j..i + j + |c|] == c;
    assert OccursAt(a, c, i + j);
  }

  /** Every string occurs in itself, and the empty string occurs everywhere. */
  lemma ContainsSelf(s: string)
    ensures Contains(s, s) && Contains(s, [])
  {
  }

  /** Length of the run of non-space characters that starts `s`. */
  function WordEnd(s: string): (n: nat)
    ensures n <= |s|
    ensures forall i :: 0 <= i < n ==> !IsSpace(s[i])
    ensures n == |s| || IsSpace(s[n])
  {
    if s == [] || IsSpace(s[0]) then 0 else 1 + WordEnd(s[1..])
  }

  predicate NoSpace(w: string) {
    forall i :: 0 <= i < |w| ==> !IsSpace(w[i])
  }

  /** `s.split(/\s+/).filter(w => w.length > 0)`: the maximal runs of
      non-space characters, left to right. */
  function Words(s: string): seq<string>
    decreases |s|
  {
    var t := TrimStart(s);
    if t == [] then []
    else
      var n := WordEnd(t);
      [t[..n]] + Words(t[n..])
  }

  /** Every word is non-empty and holds no white space. */
  lemma {:induction false} WordsShape(s: string)
    ensures forall k :: 0 <= k < |Words(s)| ==> |Words(s)[k]| > 0 && NoSpace(Words(s)[k])
    decreases |s|
  {
    var t := TrimStart(s);
    if t != [] {
      var n := WordEnd(t);
      WordsShape(t[n..]);
      var ws := Words(s);
      assert ws == [t[..n]] + Words(t[n..]);
      forall k | 0 <= k < |ws| ensures |ws[k]| > 0 && NoSpace(ws[k]) {
        if k > 0 {
          assert ws[k] == Words(t[n..])[k - 1];
        }
      }
    }
  }

  /** What occurs somewhere is included. */
  lemma ContainsWhereOccurs(s: string, p: string, i: int)
    requires OccursAt(s, p, i)
    ensures Contains(s, p)
  {
    ContainsAt(s, p);
  }

  /** Every word occurs in the string it was split from. */
  lemma {:induction false} WordsOccur(s: string)
    ensures forall k :: 0 <= k < |Words(s)| ==> Contains(s, Words(s)[k])
    decreases |s|
  {
    var t := TrimStart(s);
    if t != [] {
      var n := WordEnd(t);
      var tail := t[n..];
      FirstWordOccurs(s);
      WordsOccur(tail);
      ContainsAll(s, tail, Words(tail));
      ContainsEach(s, t[..n], Words(tail));
    }
  }

  /** The first word and everything after it are both included in the
      string they were cut from. */
  lemma FirstWordOccurs(s: string)
    requires TrimStart(s) != []
    ensures var t := TrimStart(s); var n := WordEnd(t);
      && Words(s) == [t[..n]] + Words(t[n..])
      && Contains(s, t[..n]) && Contains(s, t[n..])
  {
    var t := TrimStart(s);
    SuffixPartsOccur(s, t, WordEnd(t));
  }

  /** Both pieces of a suffix cut in two are included in the string. */
  lemma SuffixPartsOccur(s: string, t: string, n: nat)
    requires |t| <= |s| && t == s[|s| - |t|..] && n <= |t|
    ensures Contains(s, t[..n]) && Contains(s, t[n..])
  {
    var d := |s| - |t|;
    assert OccursAt(s, t[n..], d + n);
    assert OccursAt(s, t[..n], d);
    ContainsWhereOccurs(s, t[n..], d + n);
    ContainsWhereOccurs(s, t[..n], d);
  }

  /** A string that includes a word and each of a list of words includes
      each word of the longer list. */
  lemma ContainsEach(s: string, w: string, ws: seq<string>)
    requires Contains(s, w)
    requires forall k :: 0 <= k < |ws| ==> Contains(s, ws[k])
    ensures forall k :: 0 <= k < |[w] + ws| ==> Contains(s, ([w] + ws)[k])
  {
  }

  /** What a part of a string includes, the string includes. */
  lemma ContainsAll(s: string, part: string, ps: seq<string>)
    requires Contains(s, part)
    requires forall k :: 0 <= k < |ps| ==> Contains(part, ps[k])
    ensures forall k :: 0 <= k < |ps| ==> Contains(s, ps[k])
  {
    forall k | 0 <= k < |ps| ensures Contains(s, ps[k]) {
      ContainsTrans(s, part, ps[k]);
    }
  }
}
