/** Sequence facts the batch runners and the sorts rely on: the indices `0..n-1`
    (`range(n)`), filtering (`[x for x in s if p(x)]`) and counting by filtering. */
module Seqs {
  import opened Wrappers

  /** `list(range(n))`. */
  function Range(n: nat): (r: seq<nat>)
    ensures |r| == n && forall i :: 0 <= i < n ==> r[i] == i
  {
    if n == 0 then [] else Range(n - 1) + [n - 1]
  }

  ghost predicate Distinct<T>(s: seq<T>) {
    forall i, j :: 0 <= i < j < |s| ==> s[i] != s[j]
  }

  /** The elements of `s` that satisfy `p`, in their order. */
  function Filter<T>(s: seq<T>, p: T -> bool): (r: seq<T>)
    ensures |r| <= |s|
    decreases |s|
  {
    if s == [] then []
    else Filter(s[..|s| - 1], p) + (if p(s[|s| - 1]) then [s[|s| - 1]] else [])
  }

  lemma {:induction false} FilterAppend<T>(a: seq<T>, b: seq<T>, p: T -> bool)
    ensures Filter(a + b, p) == Filter(a, p) + Filter(b, p)
    decreases |b|
  {
    if b == [] {
      assert a + b == a;
    } else {
      assert (a + b)[..|a + b| - 1] == a + b[..|b| - 1];
      FilterAppend(a, b[..|b| - 1], p);
    }
  }

  lemma {:induction false} FilterNone<T>(s: seq<T>, p: T -> bool)
    requires forall j :: 0 <= j < |s| ==> !p(s[j])
    ensures Filter(s, p) == []
    decreases |s|
  {
    if s != [] {
      FilterNone(s[..|s| - 1], p);
    }
  }

  /** What the filter keeps satisfies `p` and comes from `s`. */
  lemma {:induction false} FilterMembers<T>(s: seq<T>, p: T -> bool)
    ensures forall j :: 0 <= j < |Filter(s, p)| ==> p(Filter(s, p)[j]) && Filter(s, p)[j] in s
    decreases |s|
  {
    if s != [] {
      FilterMembers(s[..|s| - 1], p);
    }
  }

  /** An element of `s` that satisfies `p` is kept. */
  lemma {:induction false} FilterKeeps<T>(s: seq<T>, p: T -> bool, x: T)
    requires x in s && p(x)
    ensures x in Filter(s, p)
    decreases |s|
  {
    var init := s[..|s| - 1];
    if x != s[|s| - 1] {
      assert s == init + [s[|s| - 1]];
      FilterKeeps(init, p, x);
    }
  }

  /** Each value occurs in the filtered sequence as often as in `s` when it satisfies `p`,
      and not at all otherwise. */
  lemma {:induction false} FilterCount<T>(s: seq<T>, p: T -> bool, x: T)
    ensures multiset(Filter(s, p))[x] == if p(x) then multiset(s)[x] else 0
    decreases |s|
  {
    if s != [] {
      var init := s[..|s| - 1];
      FilterCount(init, p, x);
      assert s == init + [s[|s| - 1]];
    }
  }

  lemma MultisetExtensional<T>(a: multiset<T>, b: multiset<T>)
    requires forall x :: a[x] == b[x]
    ensures a == b
  {
  }

  /** Filtering two arrangements of the same elements keeps the same elements. */
  lemma FilterPermutation<T>(a: seq<T>, b: seq<T>, p: T -> bool)
    requires multiset(a) == multiset(b)
    ensures multiset(Filter(a, p)) == multiset(Filter(b, p))
    ensures |Filter(a, p)| == |Filter(b, p)|
  {
    var fa, fb := multiset(Filter(a, p)), multiset(Filter(b, p));
    forall x ensures fa[x] == fb[x] {
      FilterCount(a, p, x);
      FilterCount(b, p, x);
    }
    MultisetExtensional(fa, fb);
    assert |Filter(a, p)| == |fa|;
    assert |Filter(b, p)| == |fb|;
  }

  /** When `p` implies `q` on `s`, `q` keeps at least as many elements, and more when some
      element satisfies `q` but not `p`. */
  lemma {:induction false} FilterMonotone<T>(s: seq<T>, p: T -> bool, q: T -> bool)
    requires forall j :: 0 <= j < |s| ==> p(s[j]) ==> q(s[j])
    ensures |Filter(s, p)| <= |Filter(s, q)|
    ensures (exists j :: 0 <= j < |s| && q(s[j]) && !p(s[j])) ==> |Filter(s, p)| < |Filter(s, q)|
    decreases |s|
  {
    if s != [] {
      var init := s[..|s| - 1];
      FilterMonotone(init, p, q);
      if exists j :: 0 <= j < |s| && q(s[j]) && !p(s[j]) {
        var j :| 0 <= j < |s| && q(s[j]) && !p(s[j]);
        if j < |init| {
          assert init[j] == s[j];
        }
      }
    }
  }

  /** Every element is kept either by `p` or by its negation `q`. */
  lemma {:induction false} FilterComplement<T>(s: seq<T>, p: T -> bool, q: T -> bool)
    requires forall j :: 0 <= j < |s| ==> (q(s[j]) <==> !p(s[j]))
    ensures |Filter(s, p)| + |Filter(s, q)| == |s|
    decreases |s|
  {
    if s != [] {
      FilterComplement(s[..|s| - 1], p, q);
    }
  }

  /** A sequence holding each value at most once. */
  lemma {:induction false} DistinctCounts<T>(s: seq<T>, x: T)
    requires Distinct(s)
    ensures multiset(s)[x] <= 1
    decreases |s|
  {
    if s != [] {
      var init := s[..|s| - 1];
      DistinctCounts(init, x);
      assert s == init + [s[|s| - 1]];
      if s[|s| - 1] == x {
        assert x !in init;
      }
    }
  }

  /** A value that occurs at two positions occurs at least twice. */
  lemma TwiceCounted<T>(s: seq<T>, i: nat, j: nat)
    requires i < j < |s| && s[i] == s[j]
    ensures multiset(s)[s[i]] >= 2
  {
    assert s == s[..j] + s[j..];
    assert s[i] in s[..j];
    assert s[j] in s[j..];
    assert multiset(s) == multiset(s[..j]) + multiset(s[j..]);
  }

  /** A rearrangement of distinct elements holds distinct elements. */
  lemma PermutationDistinct<T>(a: seq<T>, b: seq<T>)
    requires Distinct(a) && multiset(a) == multiset(b)
    ensures Distinct(b)
  {
    forall i, j | 0 <= i < j < |b| ensures b[i] != b[j] {
      if b[i] == b[j] {
        TwiceCounted(b, i, j);
        DistinctCounts(a, b[i]);
      }
    }
  }

  /** Filtering keeps distinct elements distinct. */
  lemma {:induction false} FilterDistinct<T>(s: seq<T>, p: T -> bool)
    requires Distinct(s)
    ensures Distinct(Filter(s, p))
    decreases |s|
  {
    if s != [] {
      var init := s[..|s| - 1];
      assert Distinct(init);
      FilterDistinct(init, p);
      FilterMembers(init, p);
      var last := s[|s| - 1];
      assert last !in init;
    }
  }

  /** Two predicates that agree on the elements of `s` keep the same elements. */
  lemma {:induction false} FilterCongruent<T>(s: seq<T>, p: T -> bool, q: T -> bool)
    requires forall j :: 0 <= j < |s| ==> (p(s[j]) <==> q(s[j]))
    ensures Filter(s, p) == Filter(s, q)
    decreases |s|
  {
    if s != [] {
      FilterCongruent(s[..|s| - 1], p, q);
    }
  }

  /** The positions whose element satisfies `p`. */
  function At<T>(s: seq<T>, p: T -> bool): nat -> bool {
    (i: nat) => i < |s| && p(s[i])
  }

  /** Counting the positions of `s` whose element satisfies `p` counts the elements. */
  lemma {:induction false} FilterPositions<T>(s: seq<T>, p: T -> bool)
    ensures |Filter(Range(|s|), At(s, p))| == |Filter(s, p)|
    decreases |s|
  {
    if s != [] {
      var n := |s|;
      var init := s[..n - 1];
      FilterPositions(init, p);
      var r := Range(n - 1);
      assert Range(n)[..n - 1] == r;
      forall j | 0 <= j < |r| ensures At(init, p)(r[j]) <==> At(s, p)(r[j]) {
        assert r[j] == j && init[j] == s[j];
      }
      FilterCongruent(r, At(init, p), At(s, p));
    }
  }

  /** `out = []; for x in xs: out += f(x)` where `f` may raise: the first exception stops
      the loop, otherwise the pieces are joined in order. */
  function ConcatMap<T, U>(xs: seq<T>, f: T -> Result<seq<U>, string>): Result<seq<U>, string>
    decreases |xs|
  {
    if xs == [] then Ok([])
    else
      var prev :- ConcatMap(xs[..|xs| - 1], f);
      var last :- f(xs[|xs| - 1]);
      Ok(prev + last)
  }

  /** One more step of the loop. */
  lemma ConcatMapStep<T, U>(xs: seq<T>, f: T -> Result<seq<U>, string>, k: nat)
    requires k < |xs|
    ensures ConcatMap(xs[..k + 1], f) ==
            (if ConcatMap(xs[..k], f).Err? then ConcatMap(xs[..k], f)
             else if f(xs[k]).Err? then Err(f(xs[k]).error)
             else Ok(ConcatMap(xs[..k], f).value + f(xs[k]).value))
  {
    assert xs[..k + 1][..k] == xs[..k];
  }

  /** Once the loop has raised, the rest of the input does not matter. */
  lemma {:induction false} ConcatMapErrPrefix<T, U>(xs: seq<T>, f: T -> Result<seq<U>, string>, k: nat)
    requires k <= |xs| && ConcatMap(xs[..k], f).Err?
    ensures ConcatMap(xs, f) == ConcatMap(xs[..k], f)
    decreases |xs| - k
  {
    if k < |xs| {
      ConcatMapStep(xs, f, k);
      ConcatMapErrPrefix(xs, f, k + 1);
    } else {
      assert xs[..k] == xs;
    }
  }

  /** The loop completes exactly when no call raises; otherwise it raises what the first
      raising call raises. */
  lemma {:induction false} ConcatMapOk<T, U>(xs: seq<T>, f: T -> Result<seq<U>, string>)
    ensures ConcatMap(xs, f).Ok? <==> forall i :: 0 <= i < |xs| ==> f(xs[i]).Ok?
    ensures ConcatMap(xs, f).Err? ==>
              exists i :: 0 <= i < |xs| && f(xs[i]).Err? && ConcatMap(xs, f).error == f(xs[i]).error &&
                          forall j :: 0 <= j < i ==> f(xs[j]).Ok?
    decreases |xs|
  {
    if xs != [] {
      var init := xs[..|xs| - 1];
      ConcatMapOk(init, f);
      assert forall i :: 0 <= i < |init| ==> init[i] == xs[i];
    }
  }

  /** Every piece lands in the output: the pieces of the first `k` inputs form its prefix. */
  lemma {:induction false} ConcatMapAppend<T, U>(a: seq<T>, b: seq<T>, f: T -> Result<seq<U>, string>)
    requires ConcatMap(a + b, f).Ok?
    ensures ConcatMap(a, f).Ok? && ConcatMap(b, f).Ok?
    ensures ConcatMap(a + b, f).value == ConcatMap(a, f).value + ConcatMap(b, f).value
    decreases |b|
  {
    if b == [] {
      assert a + b == a;
    } else {
      var b' := b[..|b| - 1];
      assert (a + b)[..|a + b| - 1] == a + b';
      ConcatMapAppend(a, b', f);
    }
  }

  /** Each output element comes from the piece of some input. */
  lemma {:induction false} ConcatMapMembers<T, U>(xs: seq<T>, f: T -> Result<seq<U>, string>, y: U)
    requires ConcatMap(xs, f).Ok? && y in ConcatMap(xs, f).value
    ensures exists i :: 0 <= i < |xs| && f(xs[i]).Ok? && y in f(xs[i]).value
    decreases |xs|
  {
    var init := xs[..|xs| - 1];
    if y in ConcatMap(init, f).value {
      ConcatMapMembers(init, f, y);
      var i :| 0 <= i < |init| && f(init[i]).Ok? && y in f(init[i]).value;
      assert init[i] == xs[i];
    }
  }

  /** When every call yields one element, the output is those elements in input order. */
  lemma {:induction false} ConcatMapSingles<T, U>(xs: seq<T>, f: T -> Result<seq<U>, string>)
    requires forall i :: 0 <= i < |xs| ==> f(xs[i]).Ok? && |f(xs[i]).value| == 1
    ensures ConcatMap(xs, f).Ok? && |ConcatMap(xs, f).value| == |xs|
    ensures forall i :: 0 <= i < |xs| ==> ConcatMap(xs, f).value[i] == f(xs[i]).value[0]
    decreases |xs|
  {
    if xs != [] {
      var init := xs[..|xs| - 1];
      assert forall i :: 0 <= i < |init| ==> init[i] == xs[i];
      ConcatMapSingles(init, f);
    }
  }

  /** A property every piece's elements have holds of every element of the output. */
  lemma ConcatMapAll<T, U>(xs: seq<T>, f: T -> Result<seq<U>, string>, P: U -> bool)
    requires ConcatMap(xs, f).Ok?
    requires forall i, y :: 0 <= i < |xs| && f(xs[i]).Ok? && y in f(xs[i]).value ==> P(y)
    ensures forall y :: y in ConcatMap(xs, f).value ==> P(y)
  {
    forall y | y in ConcatMap(xs, f).value ensures P(y) {
      ConcatMapMembers(xs, f, y);
    }
  }

  /** `results` with `piece` appended, or the exception `piece` raised. */
  function Appended<U>(results: seq<U>, piece: Result<seq<U>, string>): (r: Result<seq<U>, string>)
    ensures r.Ok? <==> piece.Ok?
    ensures r.Ok? ==> |r.value| == |results| + |piece.value|
    ensures r.Ok? ==> r.value[..|results|] == results && r.value[|results|..] == piece.value
    ensures r.Err? ==> r.error == piece.error
  {
    match piece
    case Ok(rows) => Ok(results + rows)
    case Err(e) => Err(e)
  }

  /** A turn whose item does not raise extends the appended prefix by its piece. */
  lemma ConcatMapLoopOk<T, U>(xs: seq<T>, f: T -> Result<seq<U>, string>, n: nat, results: seq<U>)
    requires n < |xs| && ConcatMap(xs[..n], f).Ok? && f(xs[n]).Ok?
    ensures ConcatMap(xs[..n + 1], f).Ok?
    ensures results + ConcatMap(xs[..n + 1], f).value == (results + ConcatMap(xs[..n], f).value) + f(xs[n]).value
  {
    ConcatMapStep(xs, f, n);
  }

  /** One turn of a loop that appends each item's piece to `acc` and returns early on the
      first exception: it either ends the loop with the exception the whole walk raises, or
      extends the appended prefix by one item. */
  lemma ConcatMapLoop<T, U>(xs: seq<T>, f: T -> Result<seq<U>, string>, n: nat, results: seq<U>, acc: seq<U>,
                            next: Result<seq<U>, string>)
    requires n < |xs| && ConcatMap(xs[..n], f).Ok? && acc == results + ConcatMap(xs[..n], f).value
    requires next == Appended(acc, f(xs[n]))
    ensures next.Err? ==> next == Appended(results, ConcatMap(xs, f))
    ensures next.Ok? ==> ConcatMap(xs[..n + 1], f).Ok? && next.value == results + ConcatMap(xs[..n + 1], f).value
  {
    if f(xs[n]).Err? {
      ConcatMapStep(xs, f, n);
      ConcatMapErrPrefix(xs, f, n + 1);
    } else {
      ConcatMapLoopOk(xs, f, n, results);
    }
  }
}
