/** JSON values and Python dictionaries.

    A Python dict is modelled as an association list with distinct keys kept in insertion
    order: `d[k] = v` replaces the value in place when `k` is present and appends otherwise,
    and the display `{a: x, **e}` is `a: x` followed by one such assignment per entry of `e`. */
module Json {
  import opened Wrappers
  import Text

  datatype Value =
    | Null
    | Bool(b: bool)
    | Int(i: int)
    | Str(s: string)
    | Arr(items: seq<Value>)
    | Obj(fields: seq<(string, Value)>)

  predicate KeysDistinct(d: seq<(string, Value)>) {
    forall i, j :: 0 <= i < j < |d| ==> d[i].0 != d[j].0
  }

  /** A Python dict: no key twice, in insertion order. */
  type Dict = d: seq<(string, Value)> | KeysDistinct(d)

  /** The position of key `k` in `d`, if it is there. */
  function IndexOf(d: seq<(string, Value)>, k: string): (r: Option<nat>)
    ensures r.Some? ==> r.value < |d| && d[r.value].0 == k &&
                        forall j :: 0 <= j < r.value ==> d[j].0 != k
    ensures r.None? ==> forall j :: 0 <= j < |d| ==> d[j].0 != k
  {
    if d == [] then None
    else if d[0].0 == k then Some(0)
    else match IndexOf(d[1..], k)
      case None => None
      case Some(i) => Some(i + 1)
  }

  /** `k in d`. */
  predicate HasKey(d: seq<(string, Value)>, k: string) {
    IndexOf(d, k).Some?
  }

  /** `d[k]` when `k in d`, `None` (a KeyError) otherwise. */
  function Lookup(d: seq<(string, Value)>, k: string): Option<Value> {
    match IndexOf(d, k)
    case Some(i) => Some(d[i].1)
    case None => None
  }

  /** `d.get(k, default)`; `d.get(k)` is `Get(d, k, Null)`. */
  function Get(d: seq<(string, Value)>, k: string, default: Value): Value {
    Lookup(d, k).GetOr(default)
  }

  /** The first position holding `k` is the one IndexOf returns. */
  lemma IndexOfIs(d: seq<(string, Value)>, k: string, j: nat)
    requires j < |d| && d[j].0 == k && forall m :: 0 <= m < j ==> d[m].0 != k
    ensures IndexOf(d, k) == Some(j)
  {
  }

  lemma IndexOfSameKeys(d: seq<(string, Value)>, e: seq<(string, Value)>, k: string)
    requires |d| == |e| && forall i :: 0 <= i < |d| ==> d[i].0 == e[i].0
    ensures IndexOf(d, k) == IndexOf(e, k)
  {
  }

  lemma IndexOfAppend(d: seq<(string, Value)>, p: (string, Value), k: string)
    requires p.0 != k
    ensures IndexOf(d + [p], k) == IndexOf(d, k)
    decreases |d|
  {
    if d != [] {
      assert (d + [p])[1..] == d[1..] + [p];
      IndexOfAppend(d[1..], p, k);
    }
  }

  /** `d[k] = v`. */
  function Put(d: Dict, k: string, v: Value): (r: Dict)
    ensures Lookup(r, k) == Some(v)
    ensures forall k' :: k' != k ==> Lookup(r, k') == Lookup(d, k')
    ensures HasKey(d, k) ==> |r| == |d| && IndexOf(r, k) == IndexOf(d, k)
    ensures !HasKey(d, k) ==> r == d + [(k, v)]
  {
    match IndexOf(d, k)
    case Some(i) =>
      var r := d[i := (k, v)];
      forall k' ensures IndexOf(r, k') == IndexOf(d, k') {
        IndexOfSameKeys(r, d, k');
      }
      r
    case None =>
      var r := d + [(k, v)];
      assert r[|d|].0 == k;
      assert IndexOf(r, k) == Some(|d|);
      forall k' | k' != k ensures IndexOf(r, k') == IndexOf(d, k') {
        IndexOfAppend(d, (k, v), k');
      }
      r
  }

  /** `{**d, **e}`: the entries of `e`, assigned one after another onto `d`. */
  function Spread(d: Dict, e: seq<(string, Value)>): Dict
    decreases |e|
  {
    if e == [] then d else Spread(Put(d, e[0].0, e[0].1), e[1..])
  }

  /** Looking a key up past the first entry when the first entry holds another key. */
  lemma LookupTail(e: seq<(string, Value)>, k: string)
    requires e != [] && e[0].0 != k
    ensures Lookup(e, k) == Lookup(e[1..], k) && HasKey(e, k) == HasKey(e[1..], k)
  {
    assert IndexOf(e, k) == (match IndexOf(e[1..], k) case None => None case Some(i) => Some(i + 1));
  }

  /** The entries after the first of a dict do not hold the first key. */
  lemma TailLacksHead(e: Dict)
    requires e != []
    ensures KeysDistinct(e[1..]) && !HasKey(e[1..], e[0].0)
  {
    var t := e[1..];
    forall j | 0 <= j < |t| ensures t[j].0 != e[0].0 {
      assert t[j] == e[j + 1];
    }
  }

  /** After `{**d, **e}` a key holds `e`'s value when `e` has it, and `d`'s otherwise. */
  lemma {:induction false} SpreadLookup(d: Dict, e: Dict, k: string)
    ensures Lookup(Spread(d, e), k) == if HasKey(e, k) then Lookup(e, k) else Lookup(d, k)
    decreases |e|
  {
    if e != [] {
      TailLacksHead(e);
      var e': Dict := e[1..];
      var d' := Put(d, e[0].0, e[0].1);
      assert Spread(d, e) == Spread(d', e');
      SpreadLookup(d', e', k);
      if k != e[0].0 {
        LookupTail(e, k);
      } else {
        assert IndexOf(e, k) == Some(0);
      }
    }
  }

  /** `{**d, **e}` keeps the keys of `d` where they were and appends the new keys of `e`
      in their order: when no key of `e` is in `d`, it is `d` followed by `e`. */
  lemma {:induction false} SpreadDisjoint(d: Dict, e: Dict)
    requires forall i :: 0 <= i < |e| ==> !HasKey(d, e[i].0)
    ensures Spread(d, e) == d + e
    decreases |e|
  {
    if e == [] {
      assert d + e == d;
    } else {
      DisjointStep(d, e);
      var e': Dict := e[1..];
      SpreadDisjoint(Put(d, e[0].0, e[0].1), e');
    }
  }

  /** One step of SpreadDisjoint: the first entry of `e` is appended to `d`, and the rest of
      `e` stays disjoint from the result. */
  lemma DisjointStep(d: Dict, e: Dict)
    requires e != [] && forall i :: 0 <= i < |e| ==> !HasKey(d, e[i].0)
    ensures KeysDistinct(e[1..])
    ensures Put(d, e[0].0, e[0].1) + e[1..] == d + e
    ensures Spread(d, e) == Spread(Put(d, e[0].0, e[0].1), e[1..])
    ensures forall i :: 0 <= i < |e[1..]| ==> !HasKey(Put(d, e[0].0, e[0].1), e[1..][i].0)
  {
    TailLacksHead(e);
    var d' := Put(d, e[0].0, e[0].1);
    assert !HasKey(d, e[0].0);
    assert d' + e[1..] == d + e;
    forall i | 0 <= i < |e[1..]| ensures !HasKey(d', e[1..][i].0) {
      assert e[1..][i] == e[i + 1];
      assert !HasKey(d, e[i + 1].0);
    }
  }

  /** `dict(pairs)`, which is how `json.loads` builds an object: a key that repeats keeps
      its first position and takes its last value. */
  function FromPairs(pairs: seq<(string, Value)>): Dict {
    Spread([], pairs)
  }

  /** An object without repeated keys becomes the dict with exactly those entries. */
  lemma FromPairsDistinct(pairs: Dict)
    ensures FromPairs(pairs) == pairs
  {
    SpreadDisjoint([], pairs);
  }

  /** `rest` is `d` without the key `k`. */
  ghost predicate Removed(d: Dict, rest: Dict, k: string) {
    !HasKey(rest, k) && forall k' :: k' != k ==> Lookup(rest, k') == Lookup(d, k')
  }

  /** Three keys popped one after another: none of them is left, and every other key keeps
      its value. */
  lemma RemovedThree(d0: Dict, d1: Dict, d2: Dict, d3: Dict, a: string, b: string, c: string)
    requires a != b && a != c && b != c
    requires Removed(d0, d1, a) && Removed(d1, d2, b) && Removed(d2, d3, c)
    ensures forall k :: k != a && k != b && k != c ==> Lookup(d3, k) == Lookup(d0, k)
    ensures !HasKey(d3, a) && !HasKey(d3, b) && !HasKey(d3, c)
  {
    HasKeyIsLookup(d1, a);
    HasKeyIsLookup(d2, a);
    HasKeyIsLookup(d3, a);
    HasKeyIsLookup(d2, b);
    HasKeyIsLookup(d3, b);
  }

  /** `d.pop(k)`: `None` (a KeyError) when `k` is missing; otherwise the value and the rest. */
  function Pop(d: Dict, k: string): (r: Option<(Value, Dict)>)
    ensures r.None? <==> !HasKey(d, k)
    ensures r.Some? ==> Some(r.value.0) == Lookup(d, k) && Removed(d, r.value.1, k)
  {
    match IndexOf(d, k)
    case None => None
    case Some(i) =>
      RemoveEntry(d, i);
      var rest: Dict := d[..i] + d[i + 1..];
      Some((d[i].1, rest))
  }

  /** Removing the entry at `i` leaves a dict without its key, and with every other key's
      value. */
  lemma RemoveEntry(d: Dict, i: nat)
    requires i < |d|
    ensures KeysDistinct(d[..i] + d[i + 1..])
    ensures Removed(d, d[..i] + d[i + 1..], d[i].0)
  {
    var rest: seq<(string, Value)> := d[..i] + d[i + 1..];
    forall a, b | 0 <= a < b < |rest| ensures rest[a].0 != rest[b].0 {
      RemovedAt(d, i, a);
      RemovedAt(d, i, b);
    }
    IndexOfIs(d, d[i].0, i);
    IndexOfRemove(d, i, d[i].0);
    forall k' | k' != d[i].0 ensures Lookup(rest, k') == Lookup(d, k') {
      IndexOfRemove(d, i, k');
      match IndexOf(d, k')
      case None =>
      case Some(j) =>
        RemovedAt(d, i, if j < i then j else j - 1);
    }
  }

  /** `d.pop(k, default)`: the value under `k` and the rest, or `default` and `d` unchanged. */
  function PopOr(d: Dict, k: string, default: Value): (r: (Value, Dict))
    ensures r.0 == Get(d, k, default)
    ensures Removed(d, r.1, k)
    ensures !HasKey(d, k) ==> r.1 == d
  {
    match Pop(d, k)
    case None => (default, d)
    case Some(p) => p
  }

  /** `{**d, **e}` looked up at every key at once. */
  lemma SpreadAll(d: Dict, e: Dict)
    ensures forall k :: Lookup(Spread(d, e), k) == if HasKey(e, k) then Lookup(e, k) else Lookup(d, k)
    ensures forall k :: HasKey(Spread(d, e), k) <==> HasKey(d, k) || HasKey(e, k)
  {
    forall k ensures Lookup(Spread(d, e), k) == (if HasKey(e, k) then Lookup(e, k) else Lookup(d, k)) &&
                     (HasKey(Spread(d, e), k) <==> HasKey(d, k) || HasKey(e, k)) {
      SpreadLookup(d, e, k);
      HasKeyIsLookup(Spread(d, e), k);
      HasKeyIsLookup(d, k);
      HasKeyIsLookup(e, k);
    }
  }

  lemma HasKeyIsLookup(d: seq<(string, Value)>, k: string)
    ensures HasKey(d, k) <==> Lookup(d, k).Some?
  {
  }

  /** Where a key's position moves to when the entry at `i` is removed. */
  function PopIndex(r: Option<nat>, i: nat): Option<nat> {
    match r
    case None => None
    case Some(j) => if j == i then None else if j < i then Some(j) else Some(j - 1)
  }

  lemma IndexOfRemove(d: Dict, i: nat, k: string)
    requires i < |d|
    ensures IndexOf(d[..i] + d[i + 1..], k) == PopIndex(IndexOf(d, k), i)
  {
    var rest := d[..i] + d[i + 1..];
    match IndexOf(d, k)
    case None =>
      forall m | 0 <= m < |rest| ensures rest[m].0 != k {
        RemovedAt(d, i, m);
      }
    case Some(j) =>
      if j == i {
        forall m | 0 <= m < |rest| ensures rest[m].0 != k {
          RemovedAt(d, i, m);
        }
      } else {
        var j' := if j < i then j else j - 1;
        RemovedAt(d, i, j');
        forall m | 0 <= m < j' ensures rest[m].0 != k {
          RemovedAt(d, i, m);
        }
        IndexOfIs(rest, k, j');
      }
  }

  /** Entry `m` of `d` with entry `i` removed. */
  lemma RemovedAt(d: seq<(string, Value)>, i: nat, m: nat)
    requires i < |d| && m < |d| - 1
    ensures (d[..i] + d[i + 1..])[m] == d[if m < i then m else m + 1]
  {
  }

  /** Python's `str(v)` for the scalar values and the empty containers; a non-empty list or
      object is shown as `[...]` or `{...}`. */
  function Render(v: Value): string {
    match v
    case Null => "None"
    case Bool(b) => if b then "True" else "False"
    case Int(i) => Text.IntToString(i)
    case Str(s) => s
    case Arr(items) => if items == [] then "[]" else "[...]"
    case Obj(fields) => if fields == [] then "{}" else "{...}"
  }

  /** `type(v).__name__`. */
  function TypeName(v: Value): string {
    match v
    case Null => "NoneType"
    case Bool(_) => "bool"
    case Int(_) => "int"
    case Str(_) => "str"
    case Arr(_) => "list"
    case Obj(_) => "dict"
  }

  /** Python truthiness: `None`, `False`, `0` and empty strings, lists and dicts are false. */
  predicate Truthy(v: Value) {
    match v
    case Null => false
    case Bool(b) => b
    case Int(i) => i != 0
    case Str(s) => s != []
    case Arr(items) => items != []
    case Obj(fields) => fields != []
  }

  /** The dict a JSON object denotes. */
  function AsDict(v: Value): Option<Dict> {
    match v
    case Obj(fields) => Some(FromPairs(fields))
    case _ => None
  }

  /** `v.get(k, default)`: an AttributeError when `v` is not a dict. */
  function DictGet(v: Value, k: string, default: Value): (r: Result<Value, string>)
    ensures r.Ok? <==> v.Obj?
    ensures r.Ok? ==> r.value == Get(AsDict(v).value, k, default)
  {
    match v
    case Obj(fields) => Ok(Get(FromPairs(fields), k, default))
    case _ => Err("'" + TypeName(v) + "' object has no attribute 'get'")
  }

  /** `v[k]` for a string key: a KeyError naming the key on a dict without it, a TypeError on
      the other values. */
  function Item(v: Value, k: string): (r: Result<Value, string>)
    ensures r.Ok? <==> v.Obj? && HasKey(AsDict(v).value, k)
    ensures r.Ok? ==> Some(r.value) == Lookup(AsDict(v).value, k)
    ensures v.Obj? && r.Err? ==> r.error == "'" + k + "'"
  {
    match v
    case Obj(fields) =>
      (match Lookup(FromPairs(fields), k)
       case Some(x) => Ok(x)
       case None => Err("'" + k + "'"))
    case Arr(_) => Err("list indices must be integers or slices, not str")
    case Str(_) => Err("string indices must be integers, not 'str'")
    case _ => Err("'" + TypeName(v) + "' object is not subscriptable")
  }

  /** `v[0]`: the first element of a list (an IndexError when it is empty), the first character
      of a string; a dict, whose keys are strings here, has no key 0. */
  function First(v: Value): (r: Result<Value, string>)
    ensures v.Arr? ==> r == if v.items == [] then Err("list index out of range") else Ok(v.items[0])
    ensures r.Ok? <==> (v.Arr? || v.Str?) && Truthy(v)
  {
    match v
    case Arr(items) => if items == [] then Err("list index out of range") else Ok(items[0])
    case Str(s) => if s == [] then Err("string index out of range") else Ok(Str([s[0]]))
    case Obj(_) => Err("0")
    case _ => Err("'" + TypeName(v) + "' object is not subscriptable")
  }

  /** Python's `needle in hay` for a string needle: a substring test on a string, an element
      test on a list, a key test on an object, and a TypeError for the other values. */
  function In(needle: string, hay: Value): (r: Result<bool, string>)
    ensures hay.Str? ==> r == Ok(Text.Contains(hay.s, needle))
    ensures (hay.Null? || hay.Bool? || hay.Int?) <==> r.Err?
  {
    match hay
    case Str(s) => Ok(Text.Contains(s, needle))
    case Arr(items) => Ok(Str(needle) in items)
    case Obj(fields) => Ok(HasKey(FromPairs(fields), needle))
    case Null => Err("argument of type 'NoneType' is not iterable")
    case Bool(_) => Err("argument of type 'bool' is not iterable")
    case Int(_) => Err("argument of type 'int' is not iterable")
  }

  /** `for x in v`: the items of a list, the one-character strings of a string, the keys of
      an object; a TypeError for the other values. */
  function Iterate(v: Value): (r: Result<seq<Value>, string>)
    ensures r.Ok? <==> v.Arr? || v.Str? || v.Obj?
    ensures v.Arr? ==> r == Ok(v.items)
    ensures r.Err? ==> r.error == "'" + TypeName(v) + "' object is not iterable"
  {
    match v
    case Arr(items) => Ok(items)
    case Str(s) => Ok(seq(|s|, i requires 0 <= i < |s| => Str([s[i]])))
    case Obj(fields) =>
      var d := FromPairs(fields);
      Ok(seq(|d|, i requires 0 <= i < |d| => Str(d[i].0)))
    case _ => Err("'" + TypeName(v) + "' object is not iterable")
  }

  /** The dict `**v` unpacks in a dict display: a TypeError when `v` is not an object. */
  function MappingOf(v: Value): (r: Result<Dict, string>)
    ensures r.Ok? <==> v.Obj?
    ensures r.Ok? ==> Some(r.value) == AsDict(v)
    ensures r.Err? ==> r.error == "'" + TypeName(v) + "' object is not a mapping"
  {
    match v
    case Obj(fields) => Ok(FromPairs(fields))
    case _ => Err("'" + TypeName(v) + "' object is not a mapping")
  }

  const PathArgMessage := "argument should be a str or an os.PathLike object where __fspath__ returns a str, not '"

  /** The string `Path(v)` is built from: a TypeError (as pathlib words it in Python 3.12)
      when `v` is not a string. */
  function PathArg(v: Value): (r: Result<string, string>)
    ensures r.Ok? <==> v.Str?
    ensures r.Ok? ==> r.value == v.s
  {
    match v
    case Str(s) => Ok(s)
    case _ => Err(PathArgMessage + TypeName(v) + "'")
  }
}
