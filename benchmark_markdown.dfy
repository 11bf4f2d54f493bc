/** src/benchmark/extract.py, the Markdown side: a converted paper is cut down to its main
    text, split into subsections at its header lines, and turned into one prompt per results
    subsection, the first subsection serving as the introduction of every prompt.

    The regular expressions of the script are written out as matchers over the text: the
    discussion marker and the article marker are literals matched ignoring ASCII case, and
    the header pattern `## (?!Figure)[^\n]+\n` is `HeaderSpan`. */
module BenchmarkMarkdown {
  import opened Wrappers
  import opened Json
  import opened Seqs
  import Text

  const DiscussionMarker := "\n## discussion\n"
  const ArticleMarker := "## article"
  const HeaderOpen := "## "
  const FigureWord := "figure"
  const Placeholder := "{{paper}}"

  /** `re.split(r"\n## discussion\n", text, flags=re.IGNORECASE)[0]`: the text up to the first
      discussion header, or all of it when there is none. */
  function BeforeDiscussion(text: string): (r: string)
    ensures |r| <= |text| && r == text[..|r|]
    ensures forall j :: 0 <= j < |r| ==> !Text.MatchesAtIgnoreCase(text, j, DiscussionMarker)
    ensures |r| < |text| ==> Text.MatchesAtIgnoreCase(text, |r|, DiscussionMarker)
  {
    match Text.FindIgnoreCase(text, DiscussionMarker, 0)
    case Some(i) => text[..i]
    case None => text
  }

  /** `re.sub(pat, "", s, flags=re.IGNORECASE)` for a literal lower-case `pat`: the text is
      scanned from the left, a match is deleted and the scan resumes after it. */
  function RemoveIgnoreCase(s: string, pat: string): string
    requires |pat| > 0
    decreases |s|
  {
    if |s| < |pat| then s
    else if Text.MatchesAtIgnoreCase(s, 0, pat) then RemoveIgnoreCase(s[|pat|..], pat)
    else [s[0]] + RemoveIgnoreCase(s[1..], pat)
  }

  /** Deleting matches never lengthens the text; it shortens it exactly when there is a
      match, and leaves it as it is otherwise. */
  lemma {:induction false} RemoveIgnoreCaseSpec(s: string, pat: string)
    requires |pat| > 0
    ensures |RemoveIgnoreCase(s, pat)| <= |s|
    ensures (exists j :: 0 <= j < |s| && Text.MatchesAtIgnoreCase(s, j, pat)) ==> |RemoveIgnoreCase(s, pat)| < |s|
    ensures (forall j :: 0 <= j < |s| ==> !Text.MatchesAtIgnoreCase(s, j, pat)) ==> RemoveIgnoreCase(s, pat) == s
    decreases |s|
  {
    if |s| >= |pat| {
      if Text.MatchesAtIgnoreCase(s, 0, pat) {
        RemoveIgnoreCaseSpec(s[|pat|..], pat);
      } else {
        var t := s[1..];
        RemoveIgnoreCaseSpec(t, pat);
        forall j | 0 <= j < |t| ensures Text.MatchesAtIgnoreCase(t, j, pat) <==> Text.MatchesAtIgnoreCase(s, j + 1, pat) {
          Text.MatchesAtSuffix(s, 1, j, pat);
        }
        if exists j :: 0 <= j < |s| && Text.MatchesAtIgnoreCase(s, j, pat) {
          var j :| 0 <= j < |s| && Text.MatchesAtIgnoreCase(s, j, pat);
          LaterMatch(s, j, pat);
        }
        assert s == [s[0]] + s[1..];
      }
    } else {
      forall j | 0 <= j < |s| ensures !Text.MatchesAtIgnoreCase(s, j, pat) {
      }
    }
  }

  /** A match that is not at the start is a match in the tail, one position earlier. */
  lemma LaterMatch(s: string, j: nat, pat: string)
    requires j < |s| && Text.MatchesAtIgnoreCase(s, j, pat) && !Text.MatchesAtIgnoreCase(s, 0, pat)
    ensures 0 < j && Text.MatchesAtIgnoreCase(s[1..], j - 1, pat)
  {
    Text.MatchesAtSuffix(s, 1, j - 1, pat);
  }

  /** Position `j` lies in one of the spans of length `n` that start at `ps`. */
  predicate Covered(ps: seq<nat>, n: nat, j: nat) {
    exists k :: 0 <= k < |ps| && ps[k] <= j < ps[k] + n
  }

  /** Every position in `ps` is a match of `pat` at or after `from`. */
  predicate MatchesFrom(s: string, pat: string, ps: seq<nat>, from: nat) {
    forall k :: 0 <= k < |ps| ==> from <= ps[k] && Text.MatchesAtIgnoreCase(s, ps[k], pat)
  }

  /** The spans of length `n` at `ps` are in order and do not overlap. */
  predicate Spaced(ps: seq<nat>, n: nat) {
    forall a, b :: 0 <= a < b < |ps| ==> ps[a] + n <= ps[b]
  }

  /** Every match of `pat` at or after `from` lies within one of the spans at `ps`. */
  predicate CoversFrom(s: string, pat: string, ps: seq<nat>, from: nat) {
    forall j :: from <= j < |s| && Text.MatchesAtIgnoreCase(s, j, pat) ==> Covered(ps, |pat|, j)
  }

  /** `ps` are the matches `re.sub` deletes from position `from` on: matches of `pat`, in
      order and without overlap, such that every match starting at or after `from` lies
      within one of them, so the left-to-right scan skipped none. */
  predicate LeftmostMatches(s: string, pat: string, ps: seq<nat>, from: nat) {
    MatchesFrom(s, pat, ps, from) && Spaced(ps, |pat|) && CoversFrom(s, pat, ps, from)
  }

  /** The spans of length `n` at `ps` lie between `from` and `end`. */
  predicate SpansWithin(ps: seq<nat>, n: nat, from: nat, end: nat) {
    forall k :: 0 <= k < |ps| ==> from <= ps[k] && ps[k] + n <= end
  }

  /** The text from `from` on with the spans of length `n` at `ps` cut out: what lies
      between them, in order. */
  function Kept(s: string, n: nat, ps: seq<nat>, from: nat): string
    requires from <= |s| && SpansWithin(ps, n, from, |s|) && Spaced(ps, n)
    decreases |ps|
  {
    if ps == [] then s[from..]
    else s[from..ps[0]] + Kept(s, n, ps[1..], ps[0] + n)
  }

  /** Cutting out the spans shortens the text by their total length. */
  lemma {:induction false} KeptLength(s: string, n: nat, ps: seq<nat>, from: nat)
    requires from <= |s| && SpansWithin(ps, n, from, |s|) && Spaced(ps, n)
    ensures |Kept(s, n, ps, from)| == |s| - from - n * |ps|
    decreases |ps|
  {
    if ps != [] {
      KeptLength(s, n, ps[1..], ps[0] + n);
      assert n * |ps| == n + n * (|ps| - 1);
    }
  }

  /** The matches the left-to-right scan finds from `from` on. */
  function MatchPositions(s: string, pat: string, from: nat): seq<nat>
    requires |pat| > 0
    decreases |s| - from
  {
    if from + |pat| > |s| then []
    else if Text.MatchesAtIgnoreCase(s, from, pat) then [from] + MatchPositions(s, pat, from + |pat|)
    else MatchPositions(s, pat, from + 1)
  }

  /** The scan's matches are the leftmost non-overlapping ones: such matches always exist. */
  lemma {:induction false} MatchPositionsLeftmost(s: string, pat: string, from: nat)
    requires |pat| > 0
    ensures LeftmostMatches(s, pat, MatchPositions(s, pat, from), from)
    decreases |s| - from, 1
  {
    if from + |pat| > |s| {
    } else if Text.MatchesAtIgnoreCase(s, from, pat) {
      MatchPositionsAtMatch(s, pat, from);
    } else {
      MatchPositionsPastMiss(s, pat, from);
    }
  }

  lemma {:induction false} MatchPositionsAtMatch(s: string, pat: string, from: nat)
    requires |pat| > 0 && from + |pat| <= |s| && Text.MatchesAtIgnoreCase(s, from, pat)
    ensures LeftmostMatches(s, pat, MatchPositions(s, pat, from), from)
    decreases |s| - from, 0
  {
    var rest := MatchPositions(s, pat, from + |pat|);
    MatchPositionsLeftmost(s, pat, from + |pat|);
    ConsLeftmost(s, pat, from, rest);
  }

  lemma {:induction false} MatchPositionsPastMiss(s: string, pat: string, from: nat)
    requires |pat| > 0 && from + |pat| <= |s| && !Text.MatchesAtIgnoreCase(s, from, pat)
    ensures LeftmostMatches(s, pat, MatchPositions(s, pat, from), from)
    decreases |s| - from, 0
  {
    MatchPositionsLeftmost(s, pat, from + 1);
    SkipCovers(s, pat, MatchPositions(s, pat, from + 1), from);
  }

  /** A match at `from` followed by the leftmost matches after it. */
  lemma ConsLeftmost(s: string, pat: string, from: nat, rest: seq<nat>)
    requires Text.MatchesAtIgnoreCase(s, from, pat) && LeftmostMatches(s, pat, rest, from + |pat|)
    ensures LeftmostMatches(s, pat, [from] + rest, from)
  {
    ConsMatchesFrom(s, pat, from, rest);
    ConsSpaced(from, |pat|, rest);
    ConsCovers(s, pat, from, rest);
  }

  /** Prefixing a match at `from` keeps every position a match at or after `from`. */
  lemma ConsMatchesFrom(s: string, pat: string, from: nat, rest: seq<nat>)
    requires Text.MatchesAtIgnoreCase(s, from, pat) && MatchesFrom(s, pat, rest, from + |pat|)
    ensures MatchesFrom(s, pat, [from] + rest, from)
  {
    var ps := [from] + rest;
    forall k | 0 <= k < |ps| ensures from <= ps[k] && Text.MatchesAtIgnoreCase(s, ps[k], pat) {
      if k > 0 {
        assert ps[k] == rest[k - 1];
      }
    }
  }

  /** Prefixing a span that ends before the others keeps the spans apart. */
  lemma ConsSpaced(from: nat, n: nat, rest: seq<nat>)
    requires Spaced(rest, n) && forall k :: 0 <= k < |rest| ==> from + n <= rest[k]
    ensures Spaced([from] + rest, n)
  {
    var ps := [from] + rest;
    forall a, b | 0 <= a < b < |ps| ensures ps[a] + n <= ps[b] {
      assert ps[b] == rest[b - 1];
      if a > 0 {
        assert ps[a] == rest[a - 1];
      }
    }
  }

  /** A match inside the span at `from` is covered by it; later ones as before. */
  lemma ConsCovers(s: string, pat: string, from: nat, rest: seq<nat>)
    requires CoversFrom(s, pat, rest, from + |pat|)
    ensures CoversFrom(s, pat, [from] + rest, from)
  {
    var ps := [from] + rest;
    forall j | from <= j < |s| && Text.MatchesAtIgnoreCase(s, j, pat) ensures Covered(ps, |pat|, j) {
      if j < from + |pat| {
        assert ps[0] <= j < ps[0] + |pat|;
      } else {
        assert Covered(rest, |pat|, j);
        var m :| 0 <= m < |rest| && rest[m] <= j < rest[m] + |pat|;
        assert ps[m + 1] == rest[m];
      }
    }
  }

  /** No match at `from`: what covers the matches from `from + 1` covers those from `from`. */
  lemma SkipCovers(s: string, pat: string, ps: seq<nat>, from: nat)
    requires !Text.MatchesAtIgnoreCase(s, from, pat) && CoversFrom(s, pat, ps, from + 1)
    ensures CoversFrom(s, pat, ps, from)
  {
    forall j | from <= j < |s| && Text.MatchesAtIgnoreCase(s, j, pat) ensures Covered(ps, |pat|, j) {
      assert j != from;
    }
  }

  /** The leftmost matches lie inside the text. */
  lemma LeftmostWithin(s: string, pat: string, ps: seq<nat>, from: nat)
    requires LeftmostMatches(s, pat, ps, from)
    ensures SpansWithin(ps, |pat|, from, |s|)
  {
  }

  /** After the first of the leftmost matches, the rest are the leftmost matches. */
  lemma PeelRest(s: string, pat: string, ps: seq<nat>, from: nat)
    requires ps != [] && LeftmostMatches(s, pat, ps, from)
    ensures LeftmostMatches(s, pat, ps[1..], ps[0] + |pat|)
  {
    var rest := ps[1..];
    forall k | 0 <= k < |rest| ensures ps[0] + |pat| <= rest[k] && Text.MatchesAtIgnoreCase(s, rest[k], pat) {
      assert rest[k] == ps[k + 1];
    }
    forall j | ps[0] + |pat| <= j < |s| && Text.MatchesAtIgnoreCase(s, j, pat) ensures Covered(rest, |pat|, j) {
      assert Covered(ps, |pat|, j);
      var m :| 0 <= m < |ps| && ps[m] <= j < ps[m] + |pat|;
      assert rest[m - 1] == ps[m];
    }
  }

  /** No match starts between `from` and the first of the leftmost matches (or the end). */
  lemma GapBeforeFirst(s: string, pat: string, ps: seq<nat>, from: nat)
    requires LeftmostMatches(s, pat, ps, from)
    ensures forall j :: from <= j < (if ps == [] then |s| else ps[0]) ==> !Text.MatchesAtIgnoreCase(s, j, pat)
  {
    forall j | from <= j < (if ps == [] then |s| else ps[0]) ensures !Text.MatchesAtIgnoreCase(s, j, pat) {
      if ps != [] {
        forall m | 0 <= m < |ps| ensures j < ps[m] {
          if m > 0 {
            assert ps[0] + |pat| <= ps[m];
          }
        }
      }
      assert !Covered(ps, |pat|, j);
    }
  }

  /** Over a stretch without matches the scan keeps every character. */
  lemma {:induction false} RemoveKeepsGap(s: string, pat: string, from: nat, p: nat)
    requires |pat| > 0 && from <= p <= |s|
    requires forall j :: from <= j < p ==> !Text.MatchesAtIgnoreCase(s, j, pat)
    ensures RemoveIgnoreCase(s[from..], pat) == s[from..p] + RemoveIgnoreCase(s[p..], pat)
    decreases p - from
  {
    if from < p {
      RemoveKeepsGap(s, pat, from + 1, p);
      KeepOne(s, pat, from, p);
    }
  }

  /** One character without a match before it is kept. */
  lemma KeepOne(s: string, pat: string, from: nat, p: nat)
    requires |pat| > 0 && from < p <= |s| && !Text.MatchesAtIgnoreCase(s, from, pat)
    requires RemoveIgnoreCase(s[from + 1..], pat) == s[from + 1..p] + RemoveIgnoreCase(s[p..], pat)
    ensures RemoveIgnoreCase(s[from..], pat) == s[from..p] + RemoveIgnoreCase(s[p..], pat)
  {
    var t := s[from..];
    if |t| < |pat| {
      assert t == s[from..p] + s[p..];
    } else {
      Text.MatchesAtSuffix(s, from, 0, pat);
      assert t[1..] == s[from + 1..];
      assert s[from..p] == [s[from]] + s[from + 1..p];
    }
  }

  /** A match at `p` is deleted whole. */
  lemma RemoveDropsMatch(s: string, pat: string, p: nat)
    requires |pat| > 0 && p <= |s| && Text.MatchesAtIgnoreCase(s, p, pat)
    ensures RemoveIgnoreCase(s[p..], pat) == RemoveIgnoreCase(s[p + |pat|..], pat)
  {
    Text.MatchesAtSuffix(s, p, 0, pat);
    assert s[p..][|pat|..] == s[p + |pat|..];
  }

  /** From `from` on, the scan deletes exactly the leftmost matches and keeps the text
      between them. */
  lemma {:induction false} RemoveLeftmost(s: string, pat: string, ps: seq<nat>, from: nat)
    requires |pat| > 0 && from <= |s|
    requires LeftmostMatches(s, pat, ps, from)
    ensures RemoveIgnoreCase(s[from..], pat) == Kept(s, |pat|, ps, from)
    decreases |ps|, 1
  {
    if ps == [] {
      RemoveNoMatchLeft(s, pat, from);
    } else {
      RemoveFirstMatch(s, pat, ps, from);
    }
  }

  /** With no match left, the rest of the text is kept whole. */
  lemma RemoveNoMatchLeft(s: string, pat: string, from: nat)
    requires |pat| > 0 && from <= |s|
    requires LeftmostMatches(s, pat, [], from)
    ensures RemoveIgnoreCase(s[from..], pat) == s[from..]
  {
    GapBeforeFirst(s, pat, [], from);
    RemoveKeepsGap(s, pat, from, |s|);
    assert s[from..|s|] == s[from..];
  }

  /** The gap before the first match is kept, the match deleted, and the rest handled alike. */
  lemma {:induction false} RemoveFirstMatch(s: string, pat: string, ps: seq<nat>, from: nat)
    requires |pat| > 0 && from <= |s| && ps != []
    requires LeftmostMatches(s, pat, ps, from)
    ensures RemoveIgnoreCase(s[from..], pat) == Kept(s, |pat|, ps, from)
    decreases |ps|, 0
  {
    GapBeforeFirst(s, pat, ps, from);
    RemoveKeepsGap(s, pat, from, ps[0]);
    RemoveDropsMatch(s, pat, ps[0]);
    PeelRest(s, pat, ps, from);
    LeftmostWithin(s, pat, ps, from);
    LeftmostWithin(s, pat, ps[1..], ps[0] + |pat|);
    RemoveLeftmost(s, pat, ps[1..], ps[0] + |pat|);
    assert RemoveIgnoreCase(s[from..], pat) == s[from..ps[0]] + RemoveIgnoreCase(s[ps[0]..], pat);
    assert RemoveIgnoreCase(s[ps[0]..], pat) == RemoveIgnoreCase(s[ps[0] + |pat|..], pat);
    KeptStep(s, pat, ps, from);
  }

  /** The gap before the first span, then what is kept after it. */
  lemma KeptStep(s: string, pat: string, ps: seq<nat>, from: nat)
    requires |pat| > 0 && from <= |s| && ps != [] && Spaced(ps, |pat|)
    requires SpansWithin(ps, |pat|, from, |s|) && SpansWithin(ps[1..], |pat|, ps[0] + |pat|, |s|)
    requires RemoveIgnoreCase(s[from..], pat) == s[from..ps[0]] + RemoveIgnoreCase(s[ps[0]..], pat)
    requires RemoveIgnoreCase(s[ps[0]..], pat) == RemoveIgnoreCase(s[ps[0] + |pat|..], pat)
    requires RemoveIgnoreCase(s[ps[0] + |pat|..], pat) == Kept(s, |pat|, ps[1..], ps[0] + |pat|)
    ensures RemoveIgnoreCase(s[from..], pat) == Kept(s, |pat|, ps, from)
  {
  }

  /** `re.sub(pat, "", s)` deletes every leftmost non-overlapping match of `pat` and keeps
      the text between them, so it is shorter by the length of `pat` once per match. */
  lemma RemoveIgnoreCaseDeletesMatches(s: string, pat: string, ps: seq<nat>)
    requires |pat| > 0 && LeftmostMatches(s, pat, ps, 0)
    ensures RemoveIgnoreCase(s, pat) == Kept(s, |pat|, ps, 0)
    ensures |RemoveIgnoreCase(s, pat)| == |s| - |pat| * |ps|
  {
    RemoveLeftmost(s, pat, ps, 0);
    KeptLength(s, |pat|, ps, 0);
    assert s[0..] == s;
  }

  /** `cut_paper`: the text before the discussion, with the article markers deleted. */
  function CutPaper(text: string): string {
    RemoveIgnoreCase(BeforeDiscussion(text), ArticleMarker)
  }

  /** The cut text is the part before the discussion with every leftmost `## article` match
      (in any case) deleted and the text between them kept; such matches always exist, and
      with none the cut text is exactly the part before the discussion. */
  lemma CutPaperSpec(text: string)
    ensures LeftmostMatches(BeforeDiscussion(text), ArticleMarker, MatchPositions(BeforeDiscussion(text), ArticleMarker, 0), 0)
    ensures forall ps :: LeftmostMatches(BeforeDiscussion(text), ArticleMarker, ps, 0) ==>
              CutPaper(text) == Kept(BeforeDiscussion(text), |ArticleMarker|, ps, 0) &&
              |CutPaper(text)| == |BeforeDiscussion(text)| - |ArticleMarker| * |ps|
    ensures (forall j :: 0 <= j < |BeforeDiscussion(text)| ==>
               !Text.MatchesAtIgnoreCase(BeforeDiscussion(text), j, ArticleMarker)) ==>
            CutPaper(text) == BeforeDiscussion(text) && Text.StartsWith(text, CutPaper(text))
  {
    var before := BeforeDiscussion(text);
    MatchPositionsLeftmost(before, ArticleMarker, 0);
    forall ps | LeftmostMatches(before, ArticleMarker, ps, 0)
      ensures CutPaper(text) == Kept(before, |ArticleMarker|, ps, 0) &&
              |CutPaper(text)| == |before| - |ArticleMarker| * |ps|
    {
      RemoveIgnoreCaseDeletesMatches(before, ArticleMarker, ps);
    }
    RemoveIgnoreCaseSpec(before, ArticleMarker);
  }

  /** The first newline at or after `from`. */
  function FindNewline(s: string, from: nat): (r: Option<nat>)
    ensures r.Some? ==> from <= r.value < |s| && s[r.value] == '\n' &&
                        forall k :: from <= k < r.value ==> s[k] != '\n'
    ensures r.None? ==> forall k :: from <= k < |s| ==> s[k] != '\n'
    decreases |s| - from
  {
    if from >= |s| then None
    else if s[from] == '\n' then Some(from)
    else FindNewline(s, from + 1)
  }

  /** `s[i..e]` is a match of `## (?!Figure)[^\n]+\n` under IGNORECASE: `## `, not followed by
      "figure" in any case, then at least one character other than a newline, then the
      newline that ends the line. */
  predicate HeaderSpan(s: string, i: nat, e: nat) {
    i + 4 < e <= |s| && s[i..i + 3] == HeaderOpen && !Text.MatchesAtIgnoreCase(s, i + 3, FigureWord) &&
    s[e - 1] == '\n' && forall k :: i + 3 <= k < e - 1 ==> s[k] != '\n'
  }

  /** The end of the header match starting at `i`, if one starts there; there is at most one. */
  function HeaderAt(s: string, i: nat): (r: Option<nat>)
    ensures r.Some? ==> i + 4 < r.value <= |s|
  {
    if i + 3 <= |s| && s[i..i + 3] == HeaderOpen && !Text.MatchesAtIgnoreCase(s, i + 3, FigureWord) then
      match FindNewline(s, i + 3)
      case Some(n) => if n > i + 3 then Some(n + 1) else None
      case None => None
    else None
  }

  /** `HeaderAt` finds exactly the header matches: one starts at `i` and ends at `e` when it
      says so, and there is at most one. */
  lemma HeaderAtSpec(s: string, i: nat, e: nat)
    ensures HeaderAt(s, i) == Some(e) <==> HeaderSpan(s, i, e)
  {
    if HeaderSpan(s, i, e) {
      assert FindNewline(s, i + 3) == Some(e - 1);
    }
  }

  /** No header match starts in `[lo, hi)`. */
  predicate NoHeaderIn(s: string, lo: nat, hi: nat) {
    forall j :: lo <= j < hi ==> HeaderAt(s, j).None?
  }

  /** The leftmost header match starting at or after `from`. */
  function NextHeader(s: string, from: nat): (r: Option<(nat, nat)>)
    ensures r.Some? ==> from <= r.value.0 && HeaderAt(s, r.value.0) == Some(r.value.1)
    decreases |s| - from
  {
    if from >= |s| then None
    else match HeaderAt(s, from)
      case Some(e) => Some((from, e))
      case None => NextHeader(s, from + 1)
  }

  /** `NextHeader` finds the leftmost match: none starts between `from` and the one it
      finds, and none at all after `from` when it finds none. */
  lemma {:induction false} NextHeaderLeftmost(s: string, from: nat)
    ensures var r := NextHeader(s, from);
            (r.Some? ==> NoHeaderIn(s, from, r.value.0)) && (r.None? ==> NoHeaderIn(s, from, |s|))
    decreases |s| - from
  {
    if from < |s| && HeaderAt(s, from).None? {
      NextHeaderLeftmost(s, from + 1);
    }
  }

  /** The spans of the header matches `re.split` finds from `from` on: each is a match, they
      come in order without overlapping, and no match starts before the first one, between
      two of them or after the last one. */
  function Headers(s: string, from: nat): (r: seq<(nat, nat)>)
    requires from <= |s|
    ensures Ordered(r, from, |s|)
    decreases |s| - from
  {
    match NextHeader(s, from)
    case None => []
    case Some((i, e)) => [(i, e)] + Headers(s, e)
  }

  /** Each span `Headers` lists is a header match, and no match starts before the first
      span, between two spans or after the last one: the matches are the leftmost ones,
      taken without overlap. */
  lemma HeadersSpec(s: string, from: nat)
    requires from <= |s|
    ensures var h := Headers(s, from);
            (forall k :: 0 <= k < |h| ==> HeaderSpan(s, h[k].0, h[k].1)) &&
            (h == [] ==> NoHeaderIn(s, from, |s|)) &&
            (h != [] ==> NoHeaderIn(s, from, h[0].0) && NoHeaderIn(s, h[|h| - 1].1, |s|)) &&
            (forall k :: 0 <= k < |h| - 1 ==> NoHeaderIn(s, h[k].1, h[k + 1].0))
  {
    HeadersMatch(s, from);
    HeadersLeftmost(s, from);
  }

  /** The first step of `Headers`: the leftmost match, then the matches after it. */
  lemma HeadersUnfold(s: string, from: nat) returns (i: nat, e: nat)
    requires from <= |s| && Headers(s, from) != []
    ensures NextHeader(s, from) == Some((i, e)) && from <= i < e <= |s|
    ensures Headers(s, from) == [(i, e)] + Headers(s, e)
  {
    var (i', e') := NextHeader(s, from).value;
    i, e := i', e';
  }

  /** The `k`-th span `Headers` lists is where `HeaderAt` finds a match. */
  lemma {:induction false} HeaderAtIndex(s: string, from: nat, k: nat)
    requires from <= |s| && k < |Headers(s, from)|
    ensures HeaderAt(s, Headers(s, from)[k].0) == Some(Headers(s, from)[k].1)
    decreases k
  {
    var i, e := HeadersUnfold(s, from);
    if k > 0 {
      HeaderAtIndex(s, e, k - 1);
    }
  }

  /** Each span `Headers` lists is a header match. */
  lemma HeadersMatch(s: string, from: nat)
    requires from <= |s|
    ensures var h := Headers(s, from);
            forall k :: 0 <= k < |h| ==> HeaderSpan(s, h[k].0, h[k].1)
  {
    var h := Headers(s, from);
    forall k | 0 <= k < |h| ensures HeaderSpan(s, h[k].0, h[k].1) {
      HeaderAtIndex(s, from, k);
      HeaderAtSpec(s, h[k].0, h[k].1);
    }
  }

  /** No header match starts between the `k`-th span `Headers` lists and the next one. */
  lemma {:induction false} HeaderGap(s: string, from: nat, k: nat)
    requires from <= |s| && k + 1 < |Headers(s, from)|
    ensures NoHeaderIn(s, Headers(s, from)[k].1, Headers(s, from)[k + 1].0)
    decreases k
  {
    var i, e := HeadersUnfold(s, from);
    if k == 0 {
      var i', e' := HeadersUnfold(s, e);
      NextHeaderLeftmost(s, e);
      assert Headers(s, from)[0].1 == e && Headers(s, from)[1].0 == i';
    } else {
      HeaderGap(s, e, k - 1);
      assert Headers(s, from)[k] == Headers(s, e)[k - 1] && Headers(s, from)[k + 1] == Headers(s, e)[k];
    }
  }

  /** No header match starts after the last span `Headers` lists, or after `from` when it
      lists none. */
  lemma {:induction false} HeadersLast(s: string, from: nat)
    requires from <= |s|
    ensures var h := Headers(s, from);
            (h == [] ==> NoHeaderIn(s, from, |s|)) && (h != [] ==> NoHeaderIn(s, h[|h| - 1].1, |s|))
    decreases |s| - from
  {
    if Headers(s, from) != [] {
      var i, e := HeadersUnfold(s, from);
      HeadersLast(s, e);
    } else {
      NextHeaderLeftmost(s, from);
    }
  }

  /** No header match starts before the first span `Headers` lists, between two of them
      or after the last one. */
  lemma HeadersLeftmost(s: string, from: nat)
    requires from <= |s|
    ensures var h := Headers(s, from);
            (h == [] ==> NoHeaderIn(s, from, |s|)) &&
            (h != [] ==> NoHeaderIn(s, from, h[0].0) && NoHeaderIn(s, h[|h| - 1].1, |s|)) &&
            (forall k :: 0 <= k < |h| - 1 ==> NoHeaderIn(s, h[k].1, h[k + 1].0))
  {
    var h := Headers(s, from);
    HeadersLast(s, from);
    if h != [] {
      var i, e := HeadersUnfold(s, from);
      NextHeaderLeftmost(s, from);
    }
    forall k | 0 <= k < |h| - 1 ensures NoHeaderIn(s, h[k].1, h[k + 1].0) {
      HeaderGap(s, from, k);
    }
  }

  /** Spans that lie in `[from, n)`, each non-empty, in order and without overlap. */
  predicate Ordered(h: seq<(nat, nat)>, from: nat, n: nat) {
    (forall k :: 0 <= k < |h| ==> from <= h[k].0 < h[k].1 <= n) &&
    (forall k, k' :: 0 <= k < k' < |h| ==> h[k].1 <= h[k'].0)
  }

  /** Cutting `s[from..]` at the spans `h`: the text before each span, then the span itself,
      and the text after the last span. */
  function Pieces(s: string, from: nat, h: seq<(nat, nat)>): seq<string>
    requires from <= |s| && Ordered(h, from, |s|)
    decreases |h|
  {
    if h == [] then [s[from..]]
    else
      assert forall k :: 0 <= k < |h| - 1 ==> h[1..][k] == h[k + 1];
      [s[from..h[0].0], s[h[0].0..h[0].1]] + Pieces(s, h[0].1, h[1..])
  }

  /** `re.split(r"(## (?!Figure)[^\n]+\n)", s[from..], flags=re.IGNORECASE)`: the text
      before each header match, then the match itself (the pattern is one capturing group),
      and the text after the last match. */
  function SplitFrom(s: string, from: nat): seq<string>
    requires from <= |s|
  {
    Pieces(s, from, Headers(s, from))
  }

  /** Where the content of the `k`-th subsection ends: at the next header, or at the end. */
  function ContentEnd(h: seq<(nat, nat)>, k: nat, n: nat): nat
    requires k < |h|
  {
    if k + 1 < |h| then h[k + 1].0 else n
  }

  /** The spans after the first, seen from the list without it. */
  lemma ShiftedSpan(h: seq<(nat, nat)>, k: nat, n: nat)
    requires 0 < k < |h|
    ensures h[k] == h[1..][k - 1] && ContentEnd(h, k, n) == ContentEnd(h[1..], k - 1, n)
  {
  }

  /** Indexing past the two pieces put in front of the rest. */
  lemma PairIndex(a: string, b: string, rest: seq<string>, n: nat)
    requires n < |rest|
    ensures ([a, b] + rest)[n + 2] == rest[n]
  {
  }

  /** There is one piece before the first span, then a span and the text after it for each
      span. */
  lemma {:induction false} PiecesLength(s: string, from: nat, h: seq<(nat, nat)>)
    requires from <= |s| && Ordered(h, from, |s|)
    ensures |Pieces(s, from, h)| == 2 * |h| + 1
    decreases |h|
  {
    if h != [] {
      PiecesLength(s, h[0].1, h[1..]);
    }
  }

  /** The `k`-th span piece is the `k`-th span. */
  lemma {:induction false} SpanPiece(s: string, from: nat, h: seq<(nat, nat)>, k: nat)
    requires from <= |s| && Ordered(h, from, |s|) && k < |h|
    ensures |Pieces(s, from, h)| == 2 * |h| + 1
    ensures Pieces(s, from, h)[2 * k + 1] == s[h[k].0..h[k].1]
    decreases k
  {
    PiecesLength(s, from, h);
    if k > 0 {
      var rest := Pieces(s, h[0].1, h[1..]);
      SpanPiece(s, h[0].1, h[1..], k - 1);
      PairIndex(s[from..h[0].0], s[h[0].0..h[0].1], rest, 2 * k - 1);
      ShiftedSpan(h, k, |s|);
    }
  }

  /** The piece after the `k`-th span is the text up to the next span, or to the end. */
  lemma {:induction false} GapPiece(s: string, from: nat, h: seq<(nat, nat)>, k: nat)
    requires from <= |s| && Ordered(h, from, |s|) && k < |h|
    ensures |Pieces(s, from, h)| == 2 * |h| + 1
    ensures Pieces(s, from, h)[2 * k + 2] == s[h[k].1..ContentEnd(h, k, |s|)]
    decreases k
  {
    PiecesLength(s, from, h);
    var rest := Pieces(s, h[0].1, h[1..]);
    PiecesLength(s, h[0].1, h[1..]);
    PairIndex(s[from..h[0].0], s[h[0].0..h[0].1], rest, 2 * k);
    if k == 0 {
      if |h| > 1 {
        assert h[1..][0] == h[1];
      }
    } else {
      GapPiece(s, h[0].1, h[1..], k - 1);
      ShiftedSpan(h, k, |s|);
    }
  }

  /** Joining the pieces gives the text back. */
  lemma {:induction false} PiecesJoin(s: string, from: nat, h: seq<(nat, nat)>)
    requires from <= |s| && Ordered(h, from, |s|)
    ensures Text.Join(Pieces(s, from, h), "") == s[from..]
    decreases |h|
  {
    if h != [] {
      var i, e := h[0].0, h[0].1;
      var rest := Pieces(s, e, h[1..]);
      PiecesJoin(s, e, h[1..]);
      PiecesLength(s, e, h[1..]);
      JoinPair(s[from..i], s[i..e], rest);
      assert s[from..] == s[from..i] + s[i..e] + s[e..];
    }
  }

  /** Joining with no separator after two pieces put in front. */
  lemma JoinPair(a: string, b: string, rest: seq<string>)
    requires rest != []
    ensures Text.Join([a, b] + rest, "") == a + b + Text.Join(rest, "")
  {
    var p := [a, b] + rest;
    assert p[1..] == [b] + rest;
    assert p[1..][1..] == rest;
  }

  /** Splitting loses nothing: the pieces joined together give the text back. */
  lemma SplitRoundTrip(s: string, from: nat)
    requires from <= |s|
    ensures Text.Join(SplitFrom(s, from), "") == s[from..]
  {
    PiecesJoin(s, from, Headers(s, from));
  }

  /** One subsection: its stripped header line and its stripped content. */
  datatype Section = Section(subtitle: string, content: string)

  /** The subsections `extract_subsections` returns for `s`: one per header match, the
      text before the first header dropped. */
  function Subsections(s: string): seq<Section> {
    var h := Headers(s, 0);
    seq(|h|, k requires 0 <= k < |h| =>
      Section(Text.Strip(s[h[k].0..h[k].1]), Text.Strip(s[h[k].1..ContentEnd(h, k, |s|)])))
  }

  lemma SubsectionAt(s: string, k: nat)
    requires k < |Headers(s, 0)|
    ensures |Subsections(s)| == |Headers(s, 0)|
    ensures Subsections(s)[k] == Section(Text.Strip(s[Headers(s, 0)[k].0..Headers(s, 0)[k].1]),
                                         Text.Strip(s[Headers(s, 0)[k].1..ContentEnd(Headers(s, 0), k, |s|)]))
  {
  }

  lemma PartsCount(s: string)
    ensures |SplitFrom(s, 0)| == 2 * |Subsections(s)| + 1
  {
    PiecesLength(s, 0, Headers(s, 0));
  }

  /** The `k`-th subsection is made of the two pieces of the split after the `k`-th header. */
  lemma PartsSection(s: string, k: nat, i: nat)
    requires k < |Subsections(s)| && i == 2 * k + 1
    ensures |SplitFrom(s, 0)| == 2 * |Subsections(s)| + 1
    ensures Subsections(s)[k] == Section(Text.Strip(SplitFrom(s, 0)[i]), Text.Strip(SplitFrom(s, 0)[i + 1]))
  {
    SpanPiece(s, 0, Headers(s, 0), k);
    GapPiece(s, 0, Headers(s, 0), k);
    SubsectionAt(s, k);
  }

  /** `extract_subsections`: split at the headers, then pair each header with the piece
      after it. */
  method ExtractSubsections(text: string) returns (subsections: seq<Section>)
    ensures subsections == Subsections(text)
  {
    var parts := SplitFrom(text, 0);
    PartsCount(text);
    ghost var all := Subsections(text);
    subsections := [];
    var i := 1;
    while i < |parts|
      invariant i == 2 * |subsections| + 1 && |subsections| <= |all|
      invariant subsections == all[..|subsections|]
    {
      var n := |subsections|;
      PartsSection(text, n, i);
      var next := Section(Text.Strip(parts[i]), Text.Strip(parts[i + 1]));
      assert all[..n + 1] == all[..n] + [all[n]];
      subsections := subsections + [next];
      i := i + 2;
    }
    assert all[..|all|] == all;
  }

  /** A subsection title is its header line stripped: it starts with `##`, holds no newline,
      and is not a Figure header. */
  lemma SubtitleShape(s: string, k: nat)
    requires k < |Subsections(s)|
    ensures var t := Subsections(s)[k].subtitle;
            Text.StartsWith(t, "##") && '\n' !in t && !Text.MatchesAtIgnoreCase(t, 3, FigureWord)
  {
    var h := Headers(s, 0);
    var i, e := h[k].0, h[k].1;
    HeadersSpec(s, 0);
    HeaderLine(s, i, e);
    assert Subsections(s)[k].subtitle == Text.Strip(s[i..e]);
  }

  /** The stripped text of one header match. */
  lemma HeaderLine(s: string, i: nat, e: nat)
    requires HeaderSpan(s, i, e)
    ensures var t := Text.Strip(s[i..e]);
            Text.StartsWith(t, "##") && '\n' !in t && !Text.MatchesAtIgnoreCase(t, 3, FigureWord)
  {
    var line := s[i..e];
    assert line[..3] == s[i..i + 3];
    forall m | 3 <= m < |line| - 1 ensures line[m] != '\n' {
      assert line[m] == s[i + m];
    }
    Text.MatchesAtSuffix(s[..e], i, 3, FigureWord);
    assert s[..e][i..] == line;
    StripHeaderLine(line);
  }

  /** A line that opens with `## `, is not a Figure header, and holds its only newline at
      its end, stripped: the newline goes and the rest stays. */
  lemma StripHeaderLine(line: string)
    requires 4 < |line| && line[..3] == HeaderOpen && !Text.MatchesAtIgnoreCase(line, 3, FigureWord)
    requires line[|line| - 1] == '\n' && forall m :: 3 <= m < |line| - 1 ==> line[m] != '\n'
    ensures var t := Text.Strip(line);
            Text.StartsWith(t, "##") && '\n' !in t && !Text.MatchesAtIgnoreCase(t, 3, FigureWord)
  {
    assert line[0] == '#' && line[1] == '#';
    assert Text.TrimStart(line) == line;
    var t := Text.TrimEnd(line);
    Text.TrimEndSpec(line);
    Text.TrimEndKeeps(line, 2);
    Text.TrimEndDrops(line);
    assert t == line[..|t|];
    assert t[..2] == "##";
    forall m | 0 <= m < |t| ensures t[m] != '\n' {
      assert t[m] == line[m];
    }
  }

  /** How a subsection is given to the model: its title, a blank line, its content. */
  function SectionText(sec: Section): string {
    sec.subtitle + "\n\n" + sec.content
  }

  /** The paper text put in place of the placeholder. */
  function PromptBody(introText: string, subText: string): string {
    "--- INTRODUCTION ---\n\n" + introText + "\n\n--- RESULTS ---\n\n" + subText
  }

  /** The record written for one results subsection of the file at `path`. */
  function PromptRecord(template: string, introText: string, sec: Section, path: string): (r: Dict)
  {
    var prompt := Text.Replace(template, Placeholder, PromptBody(introText, SectionText(sec)));
    assert "prompt" != "text" && "prompt" != "from" && "text" != "from";
    [("prompt", Str(prompt)), ("text", Str(SectionText(sec))), ("from", Str(path))]
  }

  /** The prompts of one file whose subsections are `subs`: one per subsection after the first. */
  function SectionPrompts(template: string, path: string, subs: seq<Section>): seq<Dict>
    requires subs != []
  {
    seq(|subs| - 1, k requires 0 <= k < |subs| - 1 => PromptRecord(template, SectionText(subs[0]), subs[k + 1], path))
  }

  /** The prompts of one file, or the IndexError of `subsections[0]` when it has no header. */
  function FilePrompts(template: string, path: string, text: string): Result<seq<Dict>, string> {
    var subs := Subsections(CutPaper(text));
    if subs == [] then Err("list index out of range") else Ok(SectionPrompts(template, path, subs))
  }

  function FilePromptsOf(template: string): ((string, string)) -> Result<seq<Dict>, string> {
    (file: (string, string)) => FilePrompts(template, file.0, file.1)
  }

  /** `build_prompts_from_markdown` over the files (path and text) in the order `glob` lists
      them: their prompts one after another, or the first file's IndexError. */
  function MarkdownPrompts(template: string, files: seq<(string, string)>): Result<seq<Dict>, string> {
    ConcatMap(files, FilePromptsOf(template))
  }

  /** The inner loop of `build_prompts_from_markdown`: the prompts of one file's subsections. */
  method AppendSectionPrompts(prompts: seq<Dict>, template: string, path: string, subsections: seq<Section>)
    returns (r: seq<Dict>)
    requires subsections != []
    ensures r == prompts + SectionPrompts(template, path, subsections)
  {
    var introText := SectionText(subsections[0]);
    r := prompts;
    for m := 1 to |subsections|
      invariant r == prompts + SectionPrompts(template, path, subsections[..m])
    {
      assert subsections[..m + 1][..m] == subsections[..m];
      r := r + [PromptRecord(template, introText, subsections[m], path)];
    }
    assert subsections[..|subsections|] == subsections;
  }

  /** `build_prompts_from_markdown`, with the template and the files given. */
  method BuildPromptsFromMarkdown(template: string, files: seq<(string, string)>) returns (r: Result<seq<Dict>, string>)
    ensures r == MarkdownPrompts(template, files)
  {
    var prompts: seq<Dict> := [];
    for n := 0 to |files|
      invariant ConcatMap(files[..n], FilePromptsOf(template)) == Ok(prompts)
    {
      var path, text := files[n].0, files[n].1;
      var mainText := CutPaper(text);
      var subsections := ExtractSubsections(mainText);
      ConcatMapStep(files, FilePromptsOf(template), n);
      if subsections == [] {
        ConcatMapErrPrefix(files, FilePromptsOf(template), n + 1);
        return Err("list index out of range");
      }
      prompts := AppendSectionPrompts(prompts, template, path, subsections);
    }
    assert files[..|files|] == files;
    return Ok(prompts);
  }

  /** The run fails exactly when some file has no header line left after cutting, and then
      with the IndexError. */
  lemma MarkdownPromptsFail(template: string, files: seq<(string, string)>)
    ensures MarkdownPrompts(template, files).Err? <==>
            exists i :: 0 <= i < |files| && Subsections(CutPaper(files[i].1)) == []
    ensures MarkdownPrompts(template, files).Err? ==> MarkdownPrompts(template, files).error == "list index out of range"
  {
    ConcatMapOk(files, FilePromptsOf(template));
  }

  /** The prompts of several files are those of each file in turn. */
  lemma MarkdownPromptsAppend(template: string, a: seq<(string, string)>, b: seq<(string, string)>)
    requires MarkdownPrompts(template, a + b).Ok?
    ensures MarkdownPrompts(template, a).Ok? && MarkdownPrompts(template, b).Ok?
    ensures MarkdownPrompts(template, a + b).value == MarkdownPrompts(template, a).value + MarkdownPrompts(template, b).value
  {
    ConcatMapAppend(a, b, FilePromptsOf(template));
  }

  /** A prompt record carries the subsection text and the file it comes from, and puts
      the introduction and the subsection in place of the placeholder: between the text
      around it when the template holds it once. */
  lemma PromptRecordSpec(template: string, introText: string, sec: Section, path: string)
    ensures var r, body := PromptRecord(template, introText, sec, path), PromptBody(introText, SectionText(sec));
            Lookup(r, "text") == Some(Str(SectionText(sec))) &&
            Lookup(r, "from") == Some(Str(path)) &&
            Lookup(r, "prompt") == Some(Str(Text.Replace(template, Placeholder, body))) &&
            forall pre, post :: template == pre + Placeholder + post &&
                                !Text.Contains(pre + Placeholder[..|Placeholder| - 1], Placeholder) &&
                                !Text.Contains(post, Placeholder) ==>
                                Lookup(r, "prompt") == Some(Str(pre + body + post))
  {
    var body := PromptBody(introText, SectionText(sec));
    var r := PromptRecord(template, introText, sec, path);
    assert r[0].0 == "prompt" && r[1].0 == "text" && r[2].0 == "from";
    assert "prompt" != "text" && "prompt" != "from" && "text" != "from";
    IndexOfIs(r, "text", 1);
    IndexOfIs(r, "from", 2);
    forall pre, post | template == pre + Placeholder + post &&
                       !Text.Contains(pre + Placeholder[..|Placeholder| - 1], Placeholder) &&
                       !Text.Contains(post, Placeholder)
      ensures Text.Replace(template, Placeholder, body) == pre + body + post
    {
      Text.ReplaceSingle(pre, post, Placeholder, body);
    }
  }

  /** A file with `n` subsections gives `n - 1` prompts, the `k`-th about subsection `k + 1`
      with subsection 0 as the introduction. */
  lemma FilePromptShape(template: string, path: string, text: string, k: nat)
    requires FilePrompts(template, path, text).Ok?
    ensures |Subsections(CutPaper(text))| >= 1
    ensures |FilePrompts(template, path, text).value| == |Subsections(CutPaper(text))| - 1
    ensures k < |FilePrompts(template, path, text).value| ==>
              FilePrompts(template, path, text).value[k] ==
              PromptRecord(template, SectionText(Subsections(CutPaper(text))[0]), Subsections(CutPaper(text))[k + 1], path)
  {
  }

}
