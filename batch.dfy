/** The part of `run_inference` that both runners share, written identically in
    src/utils/inference.py and src/utils/inference_gemini.py: the outcomes of the requests
    are collected as their futures complete, written back in request order, and counted.

    The thread pool is modelled by the order in which the futures complete, which is any
    arrangement of the request indices `0..n-1`. */
module Batch {
  import opened Wrappers
  import opened Json
  import opened Seqs
  import Sorting
  import Text

  /** How a run ends early: a required configuration key is missing, a non-blank input line
      is not JSON, the pool size is refused (ValueError or TypeError), or an input item is
      not an object (its `.get` raises in the worker and the error resurfaces when that
      future's result is taken). */
  datatype Crash =
    | KeyError(key: string)
    | JsonDecodeError(line: nat)
    | ValueError(message: string)
    | TypeError(message: string)
    | AttributeError(request: nat, typeName: string)

  const MaxWorkersMessage := "max_workers must be greater than 0"

  /** The value as a Python integer: `bool` is a subclass of `int`, with `True == 1`. */
  function AsPythonInt(v: Value): Option<int> {
    match v
    case Bool(b) => Some(if b then 1 else 0)
    case Int(n) => Some(n)
    case _ => None
  }

  /** `ThreadPoolExecutor(max_workers=workers)`: `None` takes the default size; otherwise
      `workers <= 0` is evaluated, which raises TypeError when `workers` is not a number and
      makes the constructor raise ValueError when it holds. */
  function PoolError(workers: Value): (r: Option<Crash>)
    ensures r.None? <==> workers.Null? || (AsPythonInt(workers).Some? && AsPythonInt(workers).value > 0)
    ensures r.Some? && r.value.ValueError? <==> AsPythonInt(workers).Some? && AsPythonInt(workers).value <= 0
    ensures r.Some? && r.value.TypeError? <==> !workers.Null? && AsPythonInt(workers).None?
    ensures r.Some? ==> r.value.ValueError? || r.value.TypeError?
  {
    if workers.Null? then None
    else match AsPythonInt(workers)
      case Some(n) => if n > 0 then None else Some(ValueError(MaxWorkersMessage))
      case None => Some(TypeError("'<=' not supported between instances of '" + TypeName(workers) + "' and 'int'"))
  }

  /** An input line that is kept: `if line.strip()`, which holds exactly when the line is not
      all whitespace (Text.StripEmptyIffBlank). */
  predicate NonBlank(line: string) {
    !Text.IsBlank(line)
  }

  /** The dataset of a run: `json.loads` of every non-blank line, in order, or the first
      non-blank line that is not JSON. */
  function DatasetOf(lines: seq<string>, decode: string -> Option<Value>): Result<seq<Value>, Crash>
    decreases |lines|
  {
    if lines == [] then Ok([])
    else
      match DatasetOf(lines[..|lines| - 1], decode)
      case Err(e) => Err(e)
      case Ok(values) =>
        var last := lines[|lines| - 1];
        if !NonBlank(last) then Ok(values)
        else match decode(last)
          case None => Err(JsonDecodeError(|lines| - 1))
          case Some(v) => Ok(values + [v])
  }

  /** The run gets past reading exactly when every non-blank line is JSON; it then has one
      item per non-blank line, decoded from it, and otherwise stops at the first non-blank
      line that is not JSON. */
  lemma {:induction false} DatasetOfSpec(lines: seq<string>, decode: string -> Option<Value>)
    ensures var r := DatasetOf(lines, decode);
            (r.Ok? <==> forall i :: 0 <= i < |lines| && NonBlank(lines[i]) ==> decode(lines[i]).Some?) &&
            (r.Ok? ==> |r.value| == |Filter(lines, NonBlank)| &&
                       forall j :: 0 <= j < |r.value| ==> decode(Filter(lines, NonBlank)[j]) == Some(r.value[j])) &&
            (r.Err? ==> r.error.JsonDecodeError? && r.error.line < |lines| &&
                        NonBlank(lines[r.error.line]) && decode(lines[r.error.line]).None? &&
                        forall i :: 0 <= i < r.error.line && NonBlank(lines[i]) ==> decode(lines[i]).Some?)
    decreases |lines|
  {
    if lines != [] {
      var init, last := lines[..|lines| - 1], lines[|lines| - 1];
      DatasetOfSpec(init, decode);
      assert forall i :: 0 <= i < |init| ==> init[i] == lines[i];
      assert Filter(lines, NonBlank) == Filter(init, NonBlank) + (if NonBlank(last) then [last] else []);
    }
  }

  /** A dataset that loads has one item per non-blank line. */
  lemma DatasetLength(lines: seq<string>, decode: string -> Option<Value>)
    requires DatasetOf(lines, decode).Ok?
    ensures |DatasetOf(lines, decode).value| == |Filter(lines, NonBlank)|
  {
    DatasetOfSpec(lines, decode);
  }

  /** Once a line fails, the lines after it are not read. */
  lemma {:induction false} DatasetOfStops(lines: seq<string>, k: nat, decode: string -> Option<Value>)
    requires k <= |lines| && DatasetOf(lines[..k], decode).Err?
    ensures DatasetOf(lines, decode) == DatasetOf(lines[..k], decode)
    decreases |lines| - k
  {
    if k < |lines| {
      var init := lines[..|lines| - 1];
      assert init[..k] == lines[..k];
      DatasetOfStops(init, k, decode);
    } else {
      assert lines[..k] == lines;
    }
  }

  /** The reading loop: a non-blank line that is not JSON stops the run. */
  method LoadDataset(lines: seq<string>, decode: string -> Option<Value>) returns (r: Result<seq<Value>, Crash>)
    ensures r == DatasetOf(lines, decode)
  {
    var dataset := [];
    var i := 0;
    while i < |lines|
      invariant 0 <= i <= |lines|
      invariant DatasetOf(lines[..i], decode) == Ok(dataset)
    {
      assert lines[..i + 1][..i] == lines[..i];
      if NonBlank(lines[i]) {
        var item := decode(lines[i]);
        if item.None? {
          DatasetOfStops(lines, i + 1, decode);
          return Err(JsonDecodeError(i));
        }
        dataset := dataset + [item.value];
      }
      i := i + 1;
    }
    assert lines[..i] == lines;
    return Ok(dataset);
  }

  /** The first request, in completion order, whose input item is not an object. */
  function FirstNonObject(dataset: seq<Value>, order: seq<nat>): (r: Option<nat>)
    ensures r.Some? ==> r.value in order && r.value < |dataset| && !dataset[r.value].Obj?
    ensures r.None? ==> forall k :: k in order && k < |dataset| ==> dataset[k].Obj?
  {
    if order == [] then None
    else if order[0] < |dataset| && !dataset[order[0]].Obj? then Some(order[0])
    else FirstNonObject(dataset, order[1..])
  }

  /** What `send_request` returns for request `i`, besides `i` itself: the record to write
      and, when the request failed, the text of the exception. */
  datatype Outcome = Outcome(record: Dict, error: Option<string>)

  /** The futures complete in some order: every request exactly once. */
  predicate IsCompletionOrder(order: seq<nat>, n: nat) {
    multiset(order) == multiset(Range(n))
  }

  /** When no request in a completion order is a non-object, every item is an object. */
  lemma AllObjects(dataset: seq<Value>, order: seq<nat>)
    requires IsCompletionOrder(order, |dataset|) && FirstNonObject(dataset, order).None?
    ensures forall i :: 0 <= i < |dataset| ==> dataset[i].Obj?
  {
    CompletionOrderMembers(order, |dataset|);
    forall i | 0 <= i < |dataset| ensures dataset[i].Obj? {
      assert (i as nat) in order;
    }
  }

  /** A completion order names each of the `n` requests exactly once. */
  lemma CompletionOrderMembers(order: seq<nat>, n: nat)
    requires IsCompletionOrder(order, n)
    ensures |order| == n && Distinct(order)
    ensures forall k: nat :: k in order <==> k < n
  {
    assert |order| == |multiset(order)| == |multiset(Range(n))| == n;
    forall k: nat ensures k in order <==> k < n {
      assert k in order <==> k in multiset(order);
      assert k in Range(n) <==> k in multiset(Range(n));
      if k < n {
        assert Range(n)[k] == k;
      }
    }
    PermutationDistinct(Range(n), order);
  }

  /** Whether request `i` raised. */
  function Failing(outcomes: seq<Outcome>): nat -> bool {
    (i: nat) => i < |outcomes| && outcomes[i].error.Some?
  }

  /** The `errors` dict after the futures completed in `order`: one entry per failed request,
      in completion order. */
  function Failures(outcomes: seq<Outcome>, order: seq<nat>): (r: seq<(nat, string)>)
    ensures |r| == |Filter(order, Failing(outcomes))|
    ensures forall j :: 0 <= j < |r| ==>
              r[j].0 == Filter(order, Failing(outcomes))[j] && r[j].0 < |outcomes| &&
              outcomes[r[j].0].error == Some(r[j].1)
    decreases |order|
  {
    if order == [] then []
    else
      var id := order[|order| - 1];
      var earlier := Failures(outcomes, order[..|order| - 1]);
      if Failing(outcomes)(id) then earlier + [(id, outcomes[id].error.value)] else earlier
  }

  /** The `results` dict once every future has completed: request `i` maps to its record. */
  function ResultsMap(outcomes: seq<Outcome>): (r: map<nat, Dict>)
    ensures forall i: nat :: i in r <==> i < |outcomes|
    ensures forall i :: 0 <= i < |outcomes| ==> r[i] == outcomes[i].record
  {
    map i: nat | i < |outcomes| :: outcomes[i].record
  }

  /** The completion loop: `results[request_id] = result_data`, and for a failed request
      `errors[request_id] = message`. Whatever the order, every request ends up in `results`
      under its own index. */
  method Collect(outcomes: seq<Outcome>, order: seq<nat>) returns (results: map<nat, Dict>, errors: seq<(nat, string)>)
    requires IsCompletionOrder(order, |outcomes|)
    ensures results == ResultsMap(outcomes)
    ensures errors == Failures(outcomes, order)
  {
    CompletionOrderMembers(order, |outcomes|);
    results := map[];
    errors := [];
    var j := 0;
    while j < |order|
      invariant 0 <= j <= |order|
      invariant forall k :: k in results <==> k in order[..j]
      invariant forall k :: k in results ==> k < |outcomes| && results[k] == outcomes[k].record
      invariant errors == Failures(outcomes, order[..j])
    {
      var id := order[j];
      assert id in order;
      assert order[..j + 1][..j] == order[..j];
      assert order[..j + 1] == order[..j] + [id];
      results := results[id := outcomes[id].record];
      if outcomes[id].error.Some? {
        errors := errors + [(id, outcomes[id].error.value)];
      }
      j := j + 1;
    }
    assert order[..j] == order;
  }

  /** `[results[i] for i in sorted(results.keys())]`, the keys listed in the order they were
      inserted. */
  function SortedResults(results: map<nat, Dict>, keys: seq<nat>): (r: seq<Dict>)
    requires forall k :: k in keys ==> k in results
    ensures |r| == |keys|
  {
    var ints: seq<int> := keys;
    Sorting.IntLeTotalPreorder();
    Sorting.SortBySpec(ints, Sorting.IntLe);
    var sortedKeys := Sorting.SortBy(ints, Sorting.IntLe);
    assert forall j :: 0 <= j < |sortedKeys| ==> sortedKeys[j] in multiset(ints);
    seq(|sortedKeys|, j requires 0 <= j < |sortedKeys| => results[sortedKeys[j]])
  }

  /** Whatever the completion order, the records are written in request order: the j-th line
      of the results file is the record of request j. */
  lemma {:induction false} SortedResultsInRequestOrder(outcomes: seq<Outcome>, order: seq<nat>)
    requires IsCompletionOrder(order, |outcomes|)
    ensures forall k :: k in order ==> k in ResultsMap(outcomes)
    ensures var out := SortedResults(ResultsMap(outcomes), order);
            |out| == |outcomes| && forall j :: 0 <= j < |out| ==> out[j] == outcomes[j].record
  {
    var n := |outcomes|;
    CompletionOrderMembers(order, n);
    var ints: seq<int> := order;
    Sorting.IntLeTotalPreorder();
    Sorting.SortBySpec(ints, Sorting.IntLe);
    var sortedKeys := Sorting.SortBy(ints, Sorting.IntLe);
    var range: seq<int> := Range(n);
    assert Sorting.Sorted(range, Sorting.IntLe);
    Sorting.SortedIntsUnique(sortedKeys, range);
  }

  /** Whether a record holds a response: `res.get("response") is not None`. */
  predicate Responded(record: Dict) {
    Get(record, "response", Null) != Null
  }

  function RespondedIn(results: map<nat, Dict>): nat -> bool {
    (i: nat) => i in results && Responded(results[i])
  }

  /** The statistics written next to the results. */
  datatype Stats = Stats(
    total: nat,
    successful: nat,
    failed: int,
    failedIds: seq<nat>,
    elapsed: real,
    throughput: real)

  /** The statistics of a run of `n` requests: `results.values()` are visited in the order
      the keys were inserted (`keys`); the failed ids are the keys of `errors`, in their
      order; throughput is 0 unless time has passed. */
  function ComputeStats(results: map<nat, Dict>, keys: seq<nat>, errors: seq<(nat, string)>, n: nat, elapsed: real): Stats
  {
    var successful := |Filter(keys, RespondedIn(results))|;
    Stats(
      n,
      successful,
      n - successful,
      seq(|errors|, j requires 0 <= j < |errors| => errors[j].0),
      elapsed,
      Throughput(successful, elapsed))
  }

  /** `successful / elapsed if elapsed > 0 else 0`. */
  function Throughput(successful: nat, elapsed: real): (r: real)
    ensures elapsed <= 0.0 ==> r == 0.0
    ensures elapsed > 0.0 ==> r >= 0.0 && r * elapsed == successful as real
  {
    if elapsed > 0.0 then successful as real / elapsed else 0.0
  }

  /** What the run computes after the pool is done: the records in request order and the
      statistics. */
  method Finish(outcomes: seq<Outcome>, order: seq<nat>, elapsed: real) returns (output: seq<Dict>, stats: Stats)
    requires IsCompletionOrder(order, |outcomes|)
    ensures output == Records(outcomes)
    ensures stats == RunStats(outcomes, order, elapsed)
  {
    var results, errors := Collect(outcomes, order);
    SortedResultsInRequestOrder(outcomes, order);
    output := SortedResults(results, order);
    assert output == Records(outcomes);
    stats := ComputeStats(results, order, errors, |outcomes|, elapsed);
  }

  /** The statistics of a run, as a function of the outcomes and the completion order. */
  function RunStats(outcomes: seq<Outcome>, order: seq<nat>, elapsed: real): Stats
    requires IsCompletionOrder(order, |outcomes|)
  {
    ComputeStats(ResultsMap(outcomes), order, Failures(outcomes, order), |outcomes|, elapsed)
  }

  /** The successful requests are those whose record holds a response, counted once each,
      whatever the completion order; the failed ones make up the rest of the total. */
  lemma CountsAddUp(outcomes: seq<Outcome>, order: seq<nat>, elapsed: real)
    requires IsCompletionOrder(order, |outcomes|)
    ensures var stats := RunStats(outcomes, order, elapsed);
            stats.total == |outcomes| &&
            stats.successful == |Filter(Range(|outcomes|), RespondedIn(ResultsMap(outcomes)))| &&
            stats.successful + stats.failed == stats.total &&
            0 <= stats.failed
  {
    FilterPermutation(order, Range(|outcomes|), RespondedIn(ResultsMap(outcomes)));
  }

  /** `failed_request_ids` names every failed request exactly once, in completion order. */
  lemma FailedIdsAreTheFailures(outcomes: seq<Outcome>, order: seq<nat>, elapsed: real)
    requires IsCompletionOrder(order, |outcomes|)
    ensures var ids := RunStats(outcomes, order, elapsed).failedIds;
            ids == Filter(order, Failing(outcomes)) &&
            Distinct(ids) &&
            (forall i: nat :: i in ids <==> i < |outcomes| && outcomes[i].error.Some?) &&
            |ids| == |Filter(Range(|outcomes|), Failing(outcomes))|
  {
    var n := |outcomes|;
    CompletionOrderMembers(order, n);
    var ids := RunStats(outcomes, order, elapsed).failedIds;
    var f := Filter(order, Failing(outcomes));
    assert ids == f;
    FilterDistinct(order, Failing(outcomes));
    FilterMembers(order, Failing(outcomes));
    FilterPermutation(order, Range(n), Failing(outcomes));
    forall i: nat | i < n && outcomes[i].error.Some? ensures i in f {
      FilterKeeps(order, Failing(outcomes), i);
    }
  }

  /** When a failed request never leaves a response in its record, there are no more failed
      ids than failed requests, and fewer as soon as some request that did not raise still
      has no response. */
  lemma FailedIdsBound(outcomes: seq<Outcome>, order: seq<nat>, elapsed: real)
    requires IsCompletionOrder(order, |outcomes|)
    requires forall i :: 0 <= i < |outcomes| && outcomes[i].error.Some? ==> !Responded(outcomes[i].record)
    ensures var stats := RunStats(outcomes, order, elapsed);
            |stats.failedIds| <= stats.failed &&
            ((exists i :: 0 <= i < |outcomes| && outcomes[i].error.None? && !Responded(outcomes[i].record)) ==>
               |stats.failedIds| < stats.failed)
  {
    var n := |outcomes|;
    var range := Range(n);
    var responded := RespondedIn(ResultsMap(outcomes));
    var silent: nat -> bool := (x: nat) => !responded(x);
    var failing := Failing(outcomes);
    CountsAddUp(outcomes, order, elapsed);
    FailedIdsAreTheFailures(outcomes, order, elapsed);
    FilterComplement(range, responded, silent);
    forall j | 0 <= j < |range| ensures failing(range[j]) ==> silent(range[j]) {
      assert range[j] == j;
    }
    FilterMonotone(range, failing, silent);
    var stats := RunStats(outcomes, order, elapsed);
    assert |stats.failedIds| == |Filter(range, failing)|;
    assert stats.failed == |Filter(range, silent)|;
    if exists i :: 0 <= i < n && outcomes[i].error.None? && !Responded(outcomes[i].record) {
      var i :| 0 <= i < n && outcomes[i].error.None? && !Responded(outcomes[i].record);
      assert range[i] == i && silent(range[i]) && !failing(range[i]);
    }
  }
  /** The records of the outcomes, in request order. */
  function Records(outcomes: seq<Outcome>): (r: seq<Dict>)
    ensures |r| == |outcomes| && forall i :: 0 <= i < |r| ==> r[i] == outcomes[i].record
  {
    seq(|outcomes|, i requires 0 <= i < |outcomes| => outcomes[i].record)
  }

  /** `successful` counts the written records that hold a response, and `failed` the
      others. */
  lemma SuccessfulCounted(outcomes: seq<Outcome>, order: seq<nat>, elapsed: real)
    requires IsCompletionOrder(order, |outcomes|)
    ensures var stats := RunStats(outcomes, order, elapsed);
            stats.successful == |Filter(Records(outcomes), Responded)| &&
            stats.failed == |outcomes| - |Filter(Records(outcomes), Responded)|
  {
    var n := |outcomes|;
    var records := Records(outcomes);
    var range := Range(n);
    CountsAddUp(outcomes, order, elapsed);
    FilterPositions(records, Responded);
    forall j | 0 <= j < |range|
      ensures RespondedIn(ResultsMap(outcomes))(range[j]) <==> At(records, Responded)(range[j])
    {
      assert range[j] == j;
    }
    FilterCongruent(range, RespondedIn(ResultsMap(outcomes)), At(records, Responded));
  }

  /** The statistics together: the total, the successful records, the failed rest, failed ids
      that name no request twice, and no more failed ids than failed requests when a request
      that raised never leaves a response. */
  lemma StatsSpec(outcomes: seq<Outcome>, order: seq<nat>, elapsed: real)
    requires IsCompletionOrder(order, |outcomes|)
    ensures var stats := RunStats(outcomes, order, elapsed);
            stats.total == |outcomes| &&
            stats.successful == |Filter(Records(outcomes), Responded)| &&
            stats.failed == |outcomes| - stats.successful &&
            Distinct(stats.failedIds) &&
            ((forall i :: 0 <= i < |outcomes| && outcomes[i].error.Some? ==> !Responded(outcomes[i].record)) ==>
               |stats.failedIds| <= stats.failed)
  {
    CountsAddUp(outcomes, order, elapsed);
    SuccessfulCounted(outcomes, order, elapsed);
    FailedIdsAreTheFailures(outcomes, order, elapsed);
    if forall i :: 0 <= i < |outcomes| && outcomes[i].error.Some? ==> !Responded(outcomes[i].record) {
      FailedIdsBound(outcomes, order, elapsed);
    }
  }

  /** The dicts of a dataset whose items are all objects. */
  function Objects(values: seq<Value>): (r: seq<Dict>)
    requires forall i :: 0 <= i < |values| ==> values[i].Obj?
    ensures |r| == |values| && forall i :: 0 <= i < |r| ==> r[i] == AsDict(values[i]).value
  {
    seq(|values|, i requires 0 <= i < |values| => AsDict(values[i]).value)
  }

  /** Items decoded from lines none of which holds `key` hold none. */
  lemma NoKeyInData(lines: seq<string>, decode: string -> Option<Value>, key: string)
    requires DatasetOf(lines, decode).Ok?
    requires forall i :: 0 <= i < |DatasetOf(lines, decode).value| ==> DatasetOf(lines, decode).value[i].Obj?
    requires forall line, v :: line in lines && decode(line) == Some(v) && v.Obj? ==> !HasKey(AsDict(v).value, key)
    ensures var data := Objects(DatasetOf(lines, decode).value);
            forall i :: 0 <= i < |data| ==> !HasKey(data[i], key)
  {
    DatasetOfSpec(lines, decode);
    FilterMembers(lines, NonBlank);
    var data := Objects(DatasetOf(lines, decode).value);
    forall i | 0 <= i < |data| ensures !HasKey(data[i], key) {
      var line := Filter(lines, NonBlank)[i];
      var v := DatasetOf(lines, decode).value[i];
      assert line in lines && decode(line) == Some(v) && v.Obj?;
    }
  }
}
