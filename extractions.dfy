/** The flattening the extraction scripts share: a parsed reply lists extractions, each
    naming its subsection and listing triplets, and every triplet becomes a row
    `{"title": title, "subsection": subsection, **triplet}`. Then one CSV per response line,
    written in turn until a line raises (src/experiments/extract.py and
    src/gemini-experiments/extract.py; src/benchmark/extract.py builds the same row). */
module Extractions {
  import opened Wrappers
  import opened Json
  import opened Seqs

  /** `{"title": title, "subsection": subsection, **triplet}`: a TypeError when the triplet
      is not an object. */
  function TripletRow(title: Value, subsection: Value, triplet: Value): Result<Dict, string> {
    var fields :- MappingOf(triplet);
    var head: Dict := [("title", title), ("subsection", subsection)];
    Ok(Spread(head, fields))
  }

  /** The keys the row display writes before the triplet's own. */
  lemma HeadLookups(title: Value, subsection: Value)
    ensures var head: Dict := [("title", title), ("subsection", subsection)];
            Lookup(head, "title") == Some(title) && Lookup(head, "subsection") == Some(subsection) &&
            forall k :: k != "title" && k != "subsection" ==> Lookup(head, k) == None
  {
    var head: Dict := [("title", title), ("subsection", subsection)];
    IndexOfIs(head, "subsection", 1);
  }

  /** A triplet that is an object gives the row of its own fields over the title and the
      subsection: a key of the triplet keeps the triplet's value, even `title` or
      `subsection`. Any other triplet raises the TypeError of `**`. */
  lemma TripletRowSpec(title: Value, subsection: Value, triplet: Value)
    ensures triplet.Obj? <==> TripletRow(title, subsection, triplet).Ok?
    ensures !triplet.Obj? ==> TripletRow(title, subsection, triplet) == Err(MappingOf(triplet).error)
    ensures triplet.Obj? ==>
              var t := AsDict(triplet).value;
              var row := TripletRow(title, subsection, triplet).value;
              Lookup(row, "title") == (if HasKey(t, "title") then Lookup(t, "title") else Some(title)) &&
              Lookup(row, "subsection") == (if HasKey(t, "subsection") then Lookup(t, "subsection") else Some(subsection)) &&
              forall k :: k != "title" && k != "subsection" ==> Lookup(row, k) == Lookup(t, k)
  {
    if triplet.Obj? {
      var t := AsDict(triplet).value;
      var head: Dict := [("title", title), ("subsection", subsection)];
      SpreadAll(head, t);
      HeadLookups(title, subsection);
      forall k | k != "title" && k != "subsection" ensures Lookup(Spread(head, t), k) == Lookup(t, k) {
        HasKeyIsLookup(t, k);
      }
    }
  }

  /** The row of one triplet, as the one-element piece the comprehension adds. */
  function TripletRowOf(title: Value, subsection: Value): Value -> Result<seq<Dict>, string> {
    (triplet: Value) => var row :- TripletRow(title, subsection, triplet); Ok([row])
  }

  /** The rows of one extraction: `subsection` and `triplets` read with `[]` (KeyErrors when
      absent), then one row per triplet. */
  function ExtractionRows(title: Value, extraction: Value): Result<seq<Dict>, string> {
    var subtitle :- Item(extraction, "subsection");
    var tripletsValue :- Item(extraction, "triplets");
    var triplets :- Iterate(tripletsValue);
    ConcatMap(triplets, TripletRowOf(title, subtitle))
  }

  function ExtractionRowsOf(title: Value): Value -> Result<seq<Dict>, string> {
    (extraction: Value) => ExtractionRows(title, extraction)
  }

  /** `results += new_rows` over the extractions of a reply. */
  function ExtractionsRows(title: Value, extractions: seq<Value>): Result<seq<Dict>, string> {
    ConcatMap(extractions, ExtractionRowsOf(title))
  }

  /** An extraction with a subsection and a list of triplets gives exactly one row per
      triplet, in order, each the row of that triplet; it raises exactly when some triplet is
      not an object. */
  lemma ExtractionRowsSpec(title: Value, extraction: Value, triplets: seq<Value>)
    requires Item(extraction, "subsection").Ok?
    requires Item(extraction, "triplets") == Ok(Arr(triplets))
    ensures ExtractionRows(title, extraction).Ok? <==> forall i :: 0 <= i < |triplets| ==> triplets[i].Obj?
    ensures ExtractionRows(title, extraction).Ok? ==>
              var rows, subtitle := ExtractionRows(title, extraction).value, Item(extraction, "subsection").value;
              |rows| == |triplets| &&
              forall i :: 0 <= i < |triplets| ==> Ok(rows[i]) == TripletRow(title, subtitle, triplets[i])
  {
    var subtitle := Item(extraction, "subsection").value;
    var f := TripletRowOf(title, subtitle);
    ConcatMapOk(triplets, f);
    forall i | 0 <= i < |triplets| ensures f(triplets[i]).Ok? <==> triplets[i].Obj? {
      TripletRowSpec(title, subtitle, triplets[i]);
    }
    if ExtractionRows(title, extraction).Ok? {
      ConcatMapSingles(triplets, f);
    }
  }

  /** The rows of the extractions, in order: those of the first extraction, then those of
      the rest. */
  lemma ExtractionsRowsAppend(title: Value, a: seq<Value>, b: seq<Value>)
    requires ExtractionsRows(title, a + b).Ok?
    ensures ExtractionsRows(title, a).Ok? && ExtractionsRows(title, b).Ok?
    ensures ExtractionsRows(title, a + b).value == ExtractionsRows(title, a).value + ExtractionsRows(title, b).value
  {
    ConcatMapAppend(a, b, ExtractionRowsOf(title));
  }

  /** How many triplets an extraction lists, counting none when it has no readable list. */
  function TripletCount(extraction: Value): nat {
    match Item(extraction, "triplets")
    case Ok(v) => (match Iterate(v) case Ok(items) => |items| case Err(_) => 0)
    case Err(_) => 0
  }

  /** How many triplets the extractions list together. */
  function TotalTriplets(extractions: seq<Value>): nat
    decreases |extractions|
  {
    if extractions == [] then 0
    else TotalTriplets(extractions[..|extractions| - 1]) + TripletCount(extractions[|extractions| - 1])
  }

  /** The rows of one extraction are as many as its triplets. */
  lemma ExtractionRowsCount(title: Value, extraction: Value)
    requires ExtractionRows(title, extraction).Ok?
    ensures |ExtractionRows(title, extraction).value| == TripletCount(extraction)
  {
    var subtitle := Item(extraction, "subsection").value;
    var triplets := Iterate(Item(extraction, "triplets").value).value;
    var f := TripletRowOf(title, subtitle);
    ConcatMapOk(triplets, f);
    forall i | 0 <= i < |triplets| ensures f(triplets[i]).Ok? && |f(triplets[i]).value| == 1 {
      TripletRowSpec(title, subtitle, triplets[i]);
    }
    ConcatMapSingles(triplets, f);
  }

  /** A reply that flattens without raising gives exactly one row per triplet of all its
      extractions. */
  lemma {:induction false} ExtractionsRowsCount(title: Value, extractions: seq<Value>)
    requires ExtractionsRows(title, extractions).Ok?
    ensures |ExtractionsRows(title, extractions).value| == TotalTriplets(extractions)
    decreases |extractions|
  {
    if extractions != [] {
      var n := |extractions| - 1;
      ExtractionsRowsCount(title, extractions[..n]);
      ExtractionRowsCount(title, extractions[n]);
    }
  }

  /** The body of the comprehension `[{...} for triplet in triplets]`. */
  method NewRows(title: Value, subtitle: Value, triplets: seq<Value>) returns (r: Result<seq<Dict>, string>)
    ensures r == ConcatMap(triplets, TripletRowOf(title, subtitle))
  {
    var rows: seq<Dict> := [];
    for n := 0 to |triplets|
      invariant ConcatMap(triplets[..n], TripletRowOf(title, subtitle)).Ok?
      invariant rows == ConcatMap(triplets[..n], TripletRowOf(title, subtitle)).value
    {
      var row := TripletRow(title, subtitle, triplets[n]);
      var next := if row.Ok? then Ok(rows + [row.value]) else Err(row.error);
      ConcatMapLoop(triplets, TripletRowOf(title, subtitle), n, [], rows, next);
      if next.Err? {
        return next;
      }
      rows := next.value;
    }
    assert triplets[..|triplets|] == triplets;
    return Ok(rows);
  }

  /** The body of `for subsection in extractions`: `new_rows` appended to `results`. */
  method AppendExtraction(results: seq<Dict>, title: Value, extraction: Value) returns (r: Result<seq<Dict>, string>)
    ensures r == Appended(results, ExtractionRows(title, extraction))
  {
    var subtitle := Item(extraction, "subsection");
    if subtitle.Err? {
      return Err(subtitle.error);
    }
    var tripletsValue := Item(extraction, "triplets");
    if tripletsValue.Err? {
      return Err(tripletsValue.error);
    }
    var triplets := Iterate(tripletsValue.value);
    if triplets.Err? {
      return Err(triplets.error);
    }
    var newRows := NewRows(title, subtitle.value, triplets.value);
    if newRows.Err? {
      return Err(newRows.error);
    }
    r := Ok(results + newRows.value);
  }

  /** `results = []` then `for subsection in extractions`. */
  method CollectRows(title: Value, extractions: seq<Value>) returns (r: Result<seq<Dict>, string>)
    ensures r == ExtractionsRows(title, extractions)
  {
    var results: seq<Dict> := [];
    for n := 0 to |extractions|
      invariant ConcatMap(extractions[..n], ExtractionRowsOf(title)).Ok?
      invariant results == ConcatMap(extractions[..n], ExtractionRowsOf(title)).value
    {
      var next := AppendExtraction(results, title, extractions[n]);
      ConcatMapLoop(extractions, ExtractionRowsOf(title), n, [], results, next);
      if next.Err? {
        return next;
      }
      results := next.value;
    }
    assert extractions[..|extractions|] == extractions;
    return Ok(results);
  }

  // ---------------------------------------------------------------------------------------
  // One CSV per response line
  // ---------------------------------------------------------------------------------------

  /** A CSV written into the output folder: its file name and its rows. */
  datatype Csv = Csv(name: string, rows: seq<Dict>)

  /** What a run leaves behind: the CSVs written, in order, and the exception that ended it
      early, if one did. */
  datatype Run = Run(written: seq<Csv>, raised: Option<string>)

  /** The loop over the response lines: each line's CSV is written before the next line is
      read, so a line that raises leaves the CSVs of the lines before it. */
  function Writes(rows: seq<Value>, csvOf: Value -> Result<Csv, string>): Run
    decreases |rows|
  {
    if rows == [] then Run([], None)
    else
      var prev := Writes(rows[..|rows| - 1], csvOf);
      if prev.raised.Some? then prev
      else match csvOf(rows[|rows| - 1])
        case Err(e) => Run(prev.written, Some(e))
        case Ok(c) => Run(prev.written + [c], None)
  }

  /** The CSVs written are those of the first lines, one per line in line order; the run
      completes exactly when every line gave one, and otherwise stops at the first line that
      raises, with its exception. */
  lemma {:induction false} WritesSpec(rows: seq<Value>, csvOf: Value -> Result<Csv, string>)
    ensures var run := Writes(rows, csvOf);
            |run.written| <= |rows| &&
            (forall i :: 0 <= i < |run.written| ==> csvOf(rows[i]) == Ok(run.written[i])) &&
            (run.raised.None? <==> |run.written| == |rows|) &&
            (run.raised.Some? ==> csvOf(rows[|run.written|]) == Err(run.raised.value))
    decreases |rows|
  {
    if rows != [] {
      var init := rows[..|rows| - 1];
      WritesSpec(init, csvOf);
      assert forall i :: 0 <= i < |init| ==> init[i] == rows[i];
    }
  }

  /** One turn of the loop over the response lines. */
  lemma WritesStep(rows: seq<Value>, csvOf: Value -> Result<Csv, string>, n: nat)
    requires n < |rows|
    ensures Writes(rows[..n + 1], csvOf) ==
            var prev := Writes(rows[..n], csvOf);
            if prev.raised.Some? then prev
            else match csvOf(rows[n])
              case Err(e) => Run(prev.written, Some(e))
              case Ok(c) => Run(prev.written + [c], None)
  {
    assert rows[..n + 1][..n] == rows[..n];
  }

  /** Once a line has raised, the lines after it are never read. */
  lemma {:induction false} WritesRaisedPrefix(rows: seq<Value>, csvOf: Value -> Result<Csv, string>, k: nat)
    requires k <= |rows| && Writes(rows[..k], csvOf).raised.Some?
    ensures Writes(rows, csvOf) == Writes(rows[..k], csvOf)
    decreases |rows| - k
  {
    if k < |rows| {
      WritesStep(rows, csvOf, k);
      WritesRaisedPrefix(rows, csvOf, k + 1);
    } else {
      assert rows[..k] == rows;
    }
  }
}
