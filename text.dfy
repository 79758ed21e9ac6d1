/** The string operations the iperf parser and the log analysis rely on:
    the substring test `pat in s`, `s.split(sep)` on a one-character
    separator, `s.split()` on runs of whitespace, and `float()`. */
module Text {
  import opened Wrappers

  /** Python's `float()` on a string: `None` where it raises `ValueError`. */
  type FloatParser = string -> Option<real>

  /** `pat in s`: some window of `s` equals `pat`, the first one tried
      being the one at the front. */
  predicate Contains(s: string, pat: string)
    decreases |s|
  {
    |pat| <= |s| && (s[..|pat|] == pat || Contains(s[1..], pat))
  }

  /** `pat` occurs in `s` starting at index `i`. */
  ghost predicate OccursAt(s: string, pat: string, i: nat) {
    i + |pat| <= |s| && s[i..i + |pat|] == pat
  }

  /** `Contains` holds exactly when `pat` occurs at some index of `s`. */
  lemma {:induction false} ContainsIff(s: string, pat: string)
    ensures Contains(s, pat) <==> exists i: nat :: OccursAt(s, pat, i)
    decreases |s|
  {
    if |pat| <= |s| {
      if s[..|pat|] == pat {
        assert OccursAt(s, pat, 0);
      } else {
        assert s != [];
        ContainsIff(s[1..], pat);
        if Contains(s[1..], pat) {
          var i: nat :| OccursAt(s[1..], pat, i);
          assert s[1..][i..i + |pat|] == s[i + 1..i + 1 + |pat|];
          assert OccursAt(s, pat, i + 1);
        }
        if exists i: nat :: OccursAt(s, pat, i) {
          var i: nat :| OccursAt(s, pat, i);
          assert i != 0;
          assert s[1..][i - 1..i - 1 + |pat|] == s[i..i + |pat|];
          assert OccursAt(s[1..], pat, i - 1);
        }
      }
    }
  }

  /** `s.split(sep)`: the pieces between the separators, always at least
      one, empty pieces included. */
  function SplitOn(s: string, sep: char): (ps: seq<string>)
    ensures |ps| >= 1
    decreases |s|
  {
    if s == [] then [""]
    else
      var rest := SplitOn(s[1..], sep);
      if s[0] == sep then [""] + rest else [[s[0]] + rest[0]] + rest[1..]
  }

  /** `sep.join(ps)`. */
  function Join(ps: seq<string>, sep: char): string
    requires |ps| >= 1
    decreases |ps|
  {
    if |ps| == 1 then ps[0] else ps[0] + [sep] + Join(ps[1..], sep)
  }

  /** Joining the pieces with the separator gives back the string, and no
      piece contains the separator. */
  lemma {:induction false} SplitOnJoin(s: string, sep: char)
    ensures Join(SplitOn(s, sep), sep) == s
    ensures forall i :: 0 <= i < |SplitOn(s, sep)| ==> sep !in SplitOn(s, sep)[i]
    decreases |s|
  {
    if s != [] {
      var rest := SplitOn(s[1..], sep);
      SplitOnJoin(s[1..], sep);
      var ps := SplitOn(s, sep);
      if s[0] == sep {
        assert ps[1..] == rest;
        assert s == [sep] + s[1..];
      } else {
        assert ps[1..] == rest[1..];
        if |rest| == 1 {
          assert s == [s[0]] + rest[0];
        } else {
          assert Join(rest, sep) == rest[0] + [sep] + Join(rest[1..], sep);
          assert s == [s[0]] + s[1..];
        }
        forall i | 0 <= i < |ps|
          ensures sep !in ps[i]
        {
          if i > 0 {
            assert ps[i] == rest[i];
          }
        }
      }
    }
  }

  /** The characters `str.split()` and `str.isspace()` treat as whitespace. */
  predicate IsSpace(c: char) {
    || ('\U{9}' <= c <= '\U{D}') || ('\U{1C}' <= c <= '\U{20}')
    || c == '\U{85}' || c == '\U{A0}' || c == '\U{1680}'
    || ('\U{2000}' <= c <= '\U{200A}') || c == '\U{2028}' || c == '\U{2029}'
    || c == '\U{202F}' || c == '\U{205F}' || c == '\U{3000}'
  }

  /** The length of the run of non-whitespace at the front of `s`. */
  function WordLength(s: string): (n: nat)
    ensures n <= |s|
    ensures forall i :: 0 <= i < n ==> !IsSpace(s[i])
    ensures n < |s| ==> IsSpace(s[n])
    decreases |s|
  {
    if s == [] || IsSpace(s[0]) then 0 else 1 + WordLength(s[1..])
  }

  /** `s.split()`: the maximal runs of non-whitespace, in order. */
  function Words(s: string): seq<string>
    decreases |s|
  {
    if s == [] then []
    else if IsSpace(s[0]) then Words(s[1..])
    else
      var n := WordLength(s);
      [s[..n]] + Words(s[n..])
  }

  /** Position p of `s` begins a word: a non-whitespace character at the
      start of `s` or right after whitespace. */
  predicate IsWordStart(s: string, p: nat) {
    p < |s| && !IsSpace(s[p]) && (p == 0 || IsSpace(s[p - 1]))
  }

  /** The word starts of `s` from position `p` on, in increasing order. */
  function StartsFrom(s: string, p: nat): (ps: seq<nat>)
    requires p <= |s|
    ensures forall k :: 0 <= k < |ps| ==> p <= ps[k] < |s|
    decreases |s| - p
  {
    if p == |s| then []
    else (if IsWordStart(s, p) then [p] else []) + StartsFrom(s, p + 1)
  }

  /** Every word start of `s`, in increasing order. */
  function WordStarts(s: string): (ps: seq<nat>)
    ensures forall k :: 0 <= k < |ps| ==> ps[k] < |s|
  {
    StartsFrom(s, 0)
  }

  /** `StartsFrom(s, p)` lists exactly the word starts from p on, in
      increasing order. */
  lemma {:induction false} StartsFromSpec(s: string, p: nat)
    requires p <= |s|
    ensures forall k :: 0 <= k < |StartsFrom(s, p)| ==> IsWordStart(s, StartsFrom(s, p)[k])
    ensures forall q :: p <= q < |s| && IsWordStart(s, q) ==> q in StartsFrom(s, p)
    ensures forall j, k :: 0 <= j < k < |StartsFrom(s, p)| ==> StartsFrom(s, p)[j] < StartsFrom(s, p)[k]
    decreases |s| - p
  {
    if p < |s| {
      StartsFromSpec(s, p + 1);
      var ps, rest := StartsFrom(s, p), StartsFrom(s, p + 1);
      if IsWordStart(s, p) {
        assert ps == [p] + rest;
        forall k | 0 < k < |ps|
          ensures ps[k] == rest[k - 1]
        {
        }
      } else {
        assert ps == rest;
      }
    }
  }

  /** Inside a run of non-whitespace no word starts. */
  lemma {:induction false} NoStartsInRun(s: string, a: nat, b: nat)
    requires 1 <= a <= b <= |s|
    requires forall i :: a - 1 <= i < b ==> !IsSpace(s[i])
    ensures StartsFrom(s, a) == StartsFrom(s, b)
    decreases b - a
  {
    if a < b {
      assert !IsWordStart(s, a);
      NoStartsInRun(s, a + 1, b);
    }
  }

  /** Position p is not inside a word: it is an end of `s`, or whitespace
      lies just before it or at it. */
  predicate AtBoundary(s: string, p: nat) {
    p == 0 || p >= |s| || IsSpace(s[p - 1]) || IsSpace(s[p])
  }

  /** The run of non-whitespace that begins at position q of `s`. */
  function WordAt(s: string, q: nat): string
    requires q <= |s|
  {
    s[q..q + WordLength(s[q..])]
  }

  /** At whitespace, `split()` of the rest skips it, and no word starts there. */
  lemma SpaceStep(s: string, p: nat)
    requires p < |s| && IsSpace(s[p])
    ensures Words(s[p..]) == Words(s[p + 1..])
    ensures StartsFrom(s, p) == StartsFrom(s, p + 1)
    ensures AtBoundary(s, p + 1)
  {
    assert s[p..][0] == s[p];
    assert s[p..][1..] == s[p + 1..];
  }

  /** At a word start, `split()` of the rest takes the run there as its first
      word, and the end of that run is a boundary. */
  lemma WordStep(s: string, p: nat)
    requires p < |s| && !IsSpace(s[p])
    ensures 1 <= WordLength(s[p..]) && p + WordLength(s[p..]) <= |s|
    ensures AtBoundary(s, p + WordLength(s[p..]))
    ensures Words(s[p..]) == [WordAt(s, p)] + Words(s[p + WordLength(s[p..])..])
  {
    var t := s[p..];
    assert t[0] == s[p];
    var n := WordLength(t);
    assert t[n..] == s[p + n..];
    assert t[..n] == s[p..p + n];
    assert p + n == |s| || s[p + n] == t[n];
  }

  /** No word starts inside the run beginning at a word start p, so the next
      one lies at or after the end of that run. */
  lemma StartStep(s: string, p: nat)
    requires IsWordStart(s, p)
    ensures StartsFrom(s, p) == [p] + StartsFrom(s, p + WordLength(s[p..]))
  {
    var t := s[p..];
    var n := WordLength(t);
    forall i | p <= i < p + n
      ensures !IsSpace(s[i])
    {
      assert s[i] == t[i - p];
    }
    NoStartsInRun(s, p + 1, p + n);
  }

  /** Putting the word at p in front of the words matched to the later starts
      keeps every word matched to its start. */
  lemma ConsWords(s: string, p: nat, ws: seq<string>, ps: seq<nat>, ws': seq<string>, ps': seq<nat>)
    requires p <= |s| && ws == [WordAt(s, p)] + ws' && ps == [p] + ps'
    requires |ws'| == |ps'| && forall k :: 0 <= k < |ps'| ==> ps'[k] <= |s| && ws'[k] == WordAt(s, ps'[k])
    ensures |ws| == |ps| && forall k :: 0 <= k < |ps| ==> ps[k] <= |s| && ws[k] == WordAt(s, ps[k])
  {
    forall k | 0 < k < |ps|
      ensures ps[k] <= |s| && ws[k] == WordAt(s, ps[k])
    {
      assert ws[k] == ws'[k - 1] && ps[k] == ps'[k - 1];
    }
  }

  /** From a boundary, `split()` on the rest gives one word per word start,
      each the run of non-whitespace that begins there. */
  lemma {:induction false} WordsFrom(s: string, p: nat)
    requires p <= |s| && AtBoundary(s, p)
    ensures |Words(s[p..])| == |StartsFrom(s, p)|
    ensures forall k :: 0 <= k < |StartsFrom(s, p)| ==> Words(s[p..])[k] == WordAt(s, StartsFrom(s, p)[k])
    decreases |s| - p
  {
    if p < |s| {
      if IsSpace(s[p]) {
        SpaceStep(s, p);
        WordsFrom(s, p + 1);
      } else {
        assert IsWordStart(s, p);
        WordStep(s, p);
        StartStep(s, p);
        var n := WordLength(s[p..]);
        WordsFrom(s, p + n);
        ConsWords(s, p, Words(s[p..]), StartsFrom(s, p), Words(s[p + n..]), StartsFrom(s, p + n));
      }
    } else {
      assert s[p..] == [];
    }
  }

  /** `s` with its whitespace removed. */
  function NonSpace(s: string): string
    decreases |s|
  {
    if s == [] then [] else (if IsSpace(s[0]) then [] else [s[0]]) + NonSpace(s[1..])
  }

  function Concat(ws: seq<string>): string
    decreases |ws|
  {
    if ws == [] then [] else ws[0] + Concat(ws[1..])
  }

  lemma {:induction false} NonSpaceAppend(a: string, b: string)
    ensures NonSpace(a + b) == NonSpace(a) + NonSpace(b)
    decreases |a|
  {
    if a == [] {
      assert a + b == b;
    } else {
      assert (a + b)[1..] == a[1..] + b;
      NonSpaceAppend(a[1..], b);
    }
  }

  lemma {:induction false} NonSpaceOfWord(w: string)
    requires forall i :: 0 <= i < |w| ==> !IsSpace(w[i])
    ensures NonSpace(w) == w
    decreases |w|
  {
    if w != [] {
      NonSpaceOfWord(w[1..]);
    }
  }

  /** `split()` gives one word per word start, in order, each the maximal
      run of non-whitespace beginning there; no word is empty or contains
      whitespace, and the words put back together are the string's
      non-whitespace characters in order. */
  lemma {:induction false} WordsSpec(s: string)
    ensures forall k :: 0 <= k < |WordStarts(s)| ==> IsWordStart(s, WordStarts(s)[k])
    ensures forall q :: 0 <= q < |s| && IsWordStart(s, q) ==> q in WordStarts(s)
    ensures forall j, k :: 0 <= j < k < |WordStarts(s)| ==> WordStarts(s)[j] < WordStarts(s)[k]
    ensures |Words(s)| == |WordStarts(s)|
    ensures forall k :: 0 <= k < |Words(s)| ==> Words(s)[k] == WordAt(s, WordStarts(s)[k])
    ensures forall i :: 0 <= i < |Words(s)| ==> |Words(s)[i]| > 0
    ensures forall i, j :: 0 <= i < |Words(s)| && 0 <= j < |Words(s)[i]| ==> !IsSpace(Words(s)[i][j])
    ensures Concat(Words(s)) == NonSpace(s)
    decreases |s|
  {
    WordsFrom(s, 0);
    assert s[0..] == s;
    StartsFromSpec(s, 0);
    WordsPieces(s);
  }

  lemma {:induction false} WordsPieces(s: string)
    ensures forall i :: 0 <= i < |Words(s)| ==> |Words(s)[i]| > 0
    ensures forall i, j :: 0 <= i < |Words(s)| && 0 <= j < |Words(s)[i]| ==> !IsSpace(Words(s)[i][j])
    ensures Concat(Words(s)) == NonSpace(s)
    decreases |s|
  {
    if s != [] {
      if IsSpace(s[0]) {
        WordsPieces(s[1..]);
      } else {
        var n := WordLength(s);
        var ws := Words(s);
        WordsPieces(s[n..]);
        assert ws[1..] == Words(s[n..]);
        assert s == s[..n] + s[n..];
        NonSpaceAppend(s[..n], s[n..]);
        NonSpaceOfWord(s[..n]);
        forall i | 0 <= i < |ws|
          ensures |ws[i]| > 0
          ensures forall j :: 0 <= j < |ws[i]| ==> !IsSpace(ws[i][j])
        {
          if i > 0 {
            assert ws[i] == Words(s[n..])[i - 1];
          }
        }
      }
    }
  }
}
