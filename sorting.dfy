/** Python's `sorted`, which the scripts apply to request indices, to page numbers and to
    result rows keyed by a string field. It is a stable sort; here it is insertion sort over
    a total preorder `le`, each new element going after every element not greater than it. */
module Sorting {
  import opened Wrappers
  import opened Json
  import opened Seqs

  /** Every two elements compare, and comparisons chain. */
  ghost predicate TotalPreorder<T(!new)>(le: (T, T) -> bool) {
    (forall a, b :: le(a, b) || le(b, a)) &&
    (forall a, b, c :: le(a, b) && le(b, c) ==> le(a, c))
  }

  predicate Sorted<T>(s: seq<T>, le: (T, T) -> bool) {
    forall i, j :: 0 <= i < j < |s| ==> le(s[i], s[j])
  }

  /** `x` placed into `s` just before the first element strictly greater than it. */
  function Insert<T>(x: T, s: seq<T>, le: (T, T) -> bool): seq<T>
    decreases |s|
  {
    if s == [] then [x]
    else if le(s[0], x) then [s[0]] + Insert(x, s[1..], le)
    else [x] + s
  }

  /** `sorted(s)`: the elements of `s` inserted one after another, from the first. */
  function SortBy<T>(s: seq<T>, le: (T, T) -> bool): seq<T>
    decreases |s|
  {
    if s == [] then [] else Insert(s[|s| - 1], SortBy(s[..|s| - 1], le), le)
  }

  /** Inserting keeps the elements and adds `x`. */
  lemma {:induction false} InsertPermutes<T>(x: T, s: seq<T>, le: (T, T) -> bool)
    ensures multiset(Insert(x, s, le)) == multiset(s) + multiset{x}
    decreases |s|
  {
    if s != [] && le(s[0], x) {
      InsertPermutes(x, s[1..], le);
      assert s == [s[0]] + s[1..];
    }
  }

  /** A lower bound of `s` and of `x` is a lower bound of `x` inserted into `s`. */
  lemma {:induction false} InsertAbove<T>(a: T, x: T, s: seq<T>, le: (T, T) -> bool)
    requires le(a, x) && forall j :: 0 <= j < |s| ==> le(a, s[j])
    ensures forall j :: 0 <= j < |Insert(x, s, le)| ==> le(a, Insert(x, s, le)[j])
    decreases |s|
  {
    if s != [] && le(s[0], x) {
      var rest := s[1..];
      assert forall j :: 0 <= j < |rest| ==> rest[j] == s[j + 1];
      InsertAbove(a, x, rest, le);
      var t := Insert(x, rest, le);
      var r := [s[0]] + t;
      assert Insert(x, s, le) == r;
      forall j | 0 <= j < |r| ensures le(a, r[j]) {
        if j > 0 {
          assert r[j] == t[j - 1];
        } else {
          assert r[0] == s[0];
        }
      }
    }
  }

  /** Inserting into a sorted sequence keeps it sorted. */
  lemma {:induction false} InsertSorted<T(!new)>(x: T, s: seq<T>, le: (T, T) -> bool)
    requires TotalPreorder(le) && Sorted(s, le)
    ensures Sorted(Insert(x, s, le), le)
    ensures multiset(Insert(x, s, le)) == multiset(s) + multiset{x}
    decreases |s|
  {
    InsertPermutes(x, s, le);
    if s != [] {
      if le(s[0], x) {
        var rest := s[1..];
        assert forall j :: 0 <= j < |rest| ==> rest[j] == s[j + 1];
        InsertSorted(x, rest, le);
        InsertAbove(s[0], x, rest, le);
        var t := Insert(x, rest, le);
        var r := [s[0]] + t;
        assert Insert(x, s, le) == r;
        forall i, j | 0 <= i < j < |r| ensures le(r[i], r[j]) {
          assert r[j] == t[j - 1];
          if i > 0 {
            assert r[i] == t[i - 1];
          }
        }
      } else {
        var r := [x] + s;
        assert Insert(x, s, le) == r;
        forall i, j | 0 <= i < j < |r| ensures le(r[i], r[j]) {
          assert r[j] == s[j - 1];
          if i > 0 {
            assert r[i] == s[i - 1];
          } else if j > 1 {
            assert le(s[0], s[j - 1]);
          }
        }
      }
    }
  }

  /** `sorted` returns the same elements, in order. */
  lemma {:induction false} SortBySpec<T(!new)>(s: seq<T>, le: (T, T) -> bool)
    requires TotalPreorder(le)
    ensures Sorted(SortBy(s, le), le)
    ensures multiset(SortBy(s, le)) == multiset(s)
    decreases |s|
  {
    if s != [] {
      SortBySpec(s[..|s| - 1], le);
      InsertSorted(s[|s| - 1], SortBy(s[..|s| - 1], le), le);
      assert s == s[..|s| - 1] + [s[|s| - 1]];
    }
  }

  /** Elements equivalent to `k` under `le`. */
  function EquivalentTo<T>(k: T, le: (T, T) -> bool): T -> bool {
    y => le(y, k) && le(k, y)
  }

  lemma {:induction false} InsertStable<T(!new)>(x: T, s: seq<T>, le: (T, T) -> bool, k: T)
    requires TotalPreorder(le) && Sorted(s, le)
    ensures Filter(Insert(x, s, le), EquivalentTo(k, le)) ==
            Filter(s, EquivalentTo(k, le)) + Filter([x], EquivalentTo(k, le))
    decreases |s|
  {
    var p := EquivalentTo(k, le);
    assert [x][..0] == [];
    if s != [] {
      if le(s[0], x) {
        InsertStable(x, s[1..], le, k);
        FilterAppend([s[0]], Insert(x, s[1..], le), p);
        FilterAppend([s[0]], s[1..], p);
        assert s == [s[0]] + s[1..];
      } else {
        FilterAppend([x], s, p);
        if p(x) {
          forall j | 0 <= j < |s| ensures !p(s[j]) {
            if j > 0 {
              assert le(s[0], s[j]);
            }
          }
          FilterNone(s, p);
        }
      }
    } else {
      assert Insert(x, s, le) == [x];
    }
  }

  /** `sorted` is stable: elements that compare equal keep their relative order. */
  lemma {:induction false} SortByStable<T(!new)>(s: seq<T>, le: (T, T) -> bool, k: T)
    requires TotalPreorder(le)
    ensures Filter(SortBy(s, le), EquivalentTo(k, le)) == Filter(s, EquivalentTo(k, le))
    decreases |s|
  {
    if s != [] {
      var init := s[..|s| - 1];
      SortByStable(init, le, k);
      SortBySpec(init, le);
      InsertStable(s[|s| - 1], SortBy(init, le), le, k);
      assert [s[|s| - 1]][..0] == [];
    }
  }

  function IntLe(a: int, b: int): bool {
    a <= b
  }

  lemma IntLeTotalPreorder()
    ensures TotalPreorder(IntLe)
  {
  }

  /** The first element of an ascending sequence is its least. */
  lemma SortedHeadLeast(s: seq<int>, x: int)
    requires Sorted(s, IntLe) && x in multiset(s)
    ensures s[0] <= x
  {
    var i :| 0 <= i < |s| && s[i] == x;
    if i > 0 {
      assert IntLe(s[0], s[i]);
    }
  }

  /** Two ascending sequences of integers with the same elements are equal. */
  lemma {:induction false} SortedIntsUnique(a: seq<int>, b: seq<int>)
    requires Sorted(a, IntLe) && Sorted(b, IntLe) && multiset(a) == multiset(b)
    ensures a == b
    decreases |a|
  {
    assert |a| == |multiset(a)| == |multiset(b)| == |b|;
    if a != [] {
      SortedHeadLeast(a, b[0]);
      SortedHeadLeast(b, a[0]);
      var a', b' := a[1..], b[1..];
      assert a[0] == b[0];
      assert a == [a[0]] + a' && b == [b[0]] + b';
      calc {
        multiset(a');
        multiset(a) - multiset{a[0]};
        multiset(b) - multiset{b[0]};
        multiset(b');
      }
      assert Sorted(a', IntLe) by {
        forall i, j | 0 <= i < j < |a'| ensures IntLe(a'[i], a'[j]) {
          assert IntLe(a[i + 1], a[j + 1]);
        }
      }
      assert Sorted(b', IntLe) by {
        forall i, j | 0 <= i < j < |b'| ensures IntLe(b'[i], b'[j]) {
          assert IntLe(b[i + 1], b[j + 1]);
        }
      }
      SortedIntsUnique(a', b');
    }
  }

  /** Python's `<` on strings: lexicographic by code point. */
  predicate StrLt(a: string, b: string)
    decreases |a|
  {
    if a == [] then b != []
    else if b == [] then false
    else a[0] < b[0] || (a[0] == b[0] && StrLt(a[1..], b[1..]))
  }

  function StrLe(a: string, b: string): bool {
    !StrLt(b, a)
  }

  lemma {:induction false} StrLtTrichotomy(a: string, b: string)
    ensures StrLt(a, b) || a == b || StrLt(b, a)
    ensures !(StrLt(a, b) && StrLt(b, a))
    decreases |a|
  {
    if a != [] && b != [] && a[0] == b[0] {
      StrLtTrichotomy(a[1..], b[1..]);
      if a[1..] == b[1..] {
        assert a == [a[0]] + a[1..] && b == [b[0]] + b[1..];
      }
    }
  }

  lemma {:induction false} StrLtTransitive(a: string, b: string, c: string)
    requires StrLt(a, b) && StrLt(b, c)
    ensures StrLt(a, c)
    decreases |a|
  {
    if a != [] && a[0] == b[0] && b[0] == c[0] {
      StrLtTransitive(a[1..], b[1..], c[1..]);
    }
  }

  lemma StrLeTotalPreorder()
    ensures TotalPreorder(StrLe)
  {
    forall a, b ensures StrLe(a, b) || StrLe(b, a) {
      StrLtTrichotomy(a, b);
    }
    forall a, b, c | StrLe(a, b) && StrLe(b, c) ensures StrLe(a, c) {
      StrLtTrichotomy(a, b);
      if StrLt(c, a) && StrLt(a, b) {
        StrLtTransitive(c, a, b);
      }
    }
  }

  /** The string a row holds under `key`, or "" when it has no string there. */
  function RowKey(row: Dict, key: string): string {
    match Lookup(row, key)
    case Some(Str(s)) => s
    case _ => ""
  }

  function RowLe(key: string): (Dict, Dict) -> bool {
    (r1: Dict, r2: Dict) => StrLe(RowKey(r1, key), RowKey(r2, key))
  }

  lemma RowLeTotalPreorder(key: string)
    ensures TotalPreorder(RowLe(key))
  {
    StrLeTotalPreorder();
  }

  /** `sorted(rows, key=lambda x: x[key])` for rows whose values under `key` are strings:
      a KeyError when some row lacks the key, otherwise the stable sort by that string. */
  function SortRowsBy(rows: seq<Dict>, key: string): (r: Result<seq<Dict>, string>)
    ensures r.Err? <==> exists i :: 0 <= i < |rows| && !HasKey(rows[i], key)
  {
    if exists i :: 0 <= i < |rows| && !HasKey(rows[i], key) then Err("'" + key + "'")
    else Ok(SortBy(rows, RowLe(key)))
  }

  /** The sorted rows are the same rows, ordered by their key, and rows with the same key
      keep their order. */
  lemma SortRowsBySpec(rows: seq<Dict>, key: string, k: Dict)
    requires SortRowsBy(rows, key).Ok?
    ensures var out := SortRowsBy(rows, key).value;
            multiset(out) == multiset(rows) &&
            (forall i, j :: 0 <= i < j < |out| ==> StrLe(RowKey(out[i], key), RowKey(out[j], key))) &&
            Filter(out, EquivalentTo(k, RowLe(key))) == Filter(rows, EquivalentTo(k, RowLe(key)))
  {
    RowLeTotalPreorder(key);
    SortBySpec(rows, RowLe(key));
    SortByStable(rows, RowLe(key), k);
  }
}
