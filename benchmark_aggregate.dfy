/** src/benchmark/extract.py, the aggregation side: the responses of a run are flattened
    into result rows, JSON-built runs keeping only the triplets that cite a reference and
    sorting by title, Markdown-built runs tagging each parsed object with the stem of its
    source file and sorting by it; and the choice between the two by `--input-format`.

    The responses file is given as the values `read_jsonl` decoded from it. `parse_json` and
    `parse_json_from_text` are not part of this model: each is a function parameter that
    receives the value of the `response` field (the scripts apply `str()` to it first). An
    exception the script would raise is an `Err` holding its message. */
module BenchmarkAggregate {
  import opened Wrappers
  import opened Json
  import opened Seqs
  import opened Sorting
  import opened Extractions
  import Paths
  import Text

  const RefMarker := "(Ref:"

  /** The two values `--input-format` accepts. */
  datatype InputFormat = JsonFormat | MarkdownFormat

  /** The dispatch of `build_prompts` and `aggregate_results`: "json" or "markdown", and a
      ValueError naming the format for anything else. */
  function ParseFormat(format: string): (r: Result<InputFormat, string>)
    ensures r == Ok(JsonFormat) <==> format == "json"
    ensures r == Ok(MarkdownFormat) <==> format == "markdown"
    ensures r.Err? ==> r.error == "Unsupported input format: " + format
  {
    if format == "json" then Ok(JsonFormat)
    else if format == "markdown" then Ok(MarkdownFormat)
    else Err("Unsupported input format: " + format)
  }

  // ---------------------------------------------------------------------------------------
  // JSON-built runs
  // ---------------------------------------------------------------------------------------

  /** `contains_ref(row)`: a KeyError when the row has no `connecting_principle`, otherwise
      whether "(Ref:" is in it (a substring test on a string). */
  function ContainsRef(row: Dict): Result<bool, string> {
    match Lookup(row, "connecting_principle")
    case None => Err("'connecting_principle'")
    case Some(cp) => In(RefMarker, cp)
  }

  /** The rows one triplet adds: its row when it cites a reference, none otherwise. */
  function TripletRows(title: Value, subsection: Value, triplet: Value): Result<seq<Dict>, string> {
    var row :- TripletRow(title, subsection, triplet);
    var keep :- ContainsRef(row);
    Ok(if keep then [row] else [])
  }

  function TripletRowsOf(title: Value, subsection: Value): Value -> Result<seq<Dict>, string> {
    (triplet: Value) => TripletRows(title, subsection, triplet)
  }

  /** The rows of one section: `subsection` and `triplets` read with `get` (None and [] when
      absent), then each triplet in turn. */
  function SectionRows(title: Value, section: Value): Result<seq<Dict>, string> {
    var subsection :- DictGet(section, "subsection", Null);
    var triplets :- DictGet(section, "triplets", Arr([]));
    var items :- Iterate(triplets);
    ConcatMap(items, TripletRowsOf(title, subsection))
  }

  function SectionRowsOf(title: Value): Value -> Result<seq<Dict>, string> {
    (section: Value) => SectionRows(title, section)
  }

  /** The rows of one parsed element: each of its sections in turn. */
  function ParsedRows(title: Value, parsed: Value): Result<seq<Dict>, string> {
    var sections :- Iterate(parsed);
    ConcatMap(sections, SectionRowsOf(title))
  }

  function ParsedRowsOf(title: Value): Value -> Result<seq<Dict>, string> {
    (parsed: Value) => ParsedRows(title, parsed)
  }

  /** The rows of one response line: `response`, `from` (which must make a path) and
      `title` are read in that order, then the parsed response is walked. */
  function ResponseRows(parse: Value -> Result<Value, string>, row: Value): Result<seq<Dict>, string> {
    var response :- Item(row, "response");
    var from :- Item(row, "from");
    var path :- PathArg(from);
    var title :- Item(row, "title");
    var parsedJson :- parse(response);
    var items :- Iterate(parsedJson);
    ConcatMap(items, ParsedRowsOf(title))
  }

  function ResponseRowsOf(parse: Value -> Result<Value, string>): Value -> Result<seq<Dict>, string> {
    (row: Value) => ResponseRows(parse, row)
  }

  /** `aggregate_results_json` up to the files it writes: every response's rows, sorted by
      title. */
  function JsonResults(parse: Value -> Result<Value, string>, rows: seq<Value>): Result<seq<Dict>, string> {
    var results :- ConcatMap(rows, ResponseRowsOf(parse));
    SortRowsBy(results, "title")
  }

  /** A row the JSON aggregation keeps: it cites a reference and has a title and a
      subsection. */
  predicate Kept(row: Dict) {
    Lookup(row, "connecting_principle").Some? &&
    In(RefMarker, Lookup(row, "connecting_principle").value) == Ok(true) &&
    HasKey(row, "title") && HasKey(row, "subsection")
  }

  /** The row of an object triplet is kept exactly when its `connecting_principle` contains
      "(Ref:"; a triplet without `connecting_principle` raises the KeyError, and one that is
      not an object the TypeError of `**`. */
  lemma TripletRowsKeep(title: Value, subsection: Value, triplet: Value)
    ensures !triplet.Obj? ==> TripletRows(title, subsection, triplet) == Err(MappingOf(triplet).error)
    ensures triplet.Obj? ==>
              var row := TripletRow(title, subsection, triplet).value;
              var cp := Lookup(AsDict(triplet).value, "connecting_principle");
              (cp.None? ==> TripletRows(title, subsection, triplet) == Err("'connecting_principle'")) &&
              (cp.Some? ==>
                 (TripletRows(title, subsection, triplet) == Ok([row]) <==> In(RefMarker, cp.value) == Ok(true)) &&
                 (TripletRows(title, subsection, triplet) == Ok([]) <==> In(RefMarker, cp.value) == Ok(false)) &&
                 (TripletRows(title, subsection, triplet).Err? <==> In(RefMarker, cp.value).Err?))
  {
    TripletRowSpec(title, subsection, triplet);
  }

  /** Every row a triplet adds is kept. */
  lemma TripletRowsKept(title: Value, subsection: Value, triplet: Value)
    requires TripletRows(title, subsection, triplet).Ok?
    ensures forall y :: y in TripletRows(title, subsection, triplet).value ==> Kept(y)
  {
    TripletRowSpec(title, subsection, triplet);
    var t := AsDict(triplet).value;
    var row := TripletRow(title, subsection, triplet).value;
    HasKeyIsLookup(row, "title");
    HasKeyIsLookup(row, "subsection");
    HasKeyIsLookup(t, "title");
    HasKeyIsLookup(t, "subsection");
  }

  lemma SectionRowsKept(title: Value, section: Value)
    requires SectionRows(title, section).Ok?
    ensures forall y :: y in SectionRows(title, section).value ==> Kept(y)
  {
    var subsection := DictGet(section, "subsection", Null).value;
    var items := Iterate(DictGet(section, "triplets", Arr([])).value).value;
    var f := TripletRowsOf(title, subsection);
    forall i | 0 <= i < |items| && f(items[i]).Ok? ensures forall y :: y in f(items[i]).value ==> Kept(y) {
      TripletRowsKept(title, subsection, items[i]);
    }
    ConcatMapAll(items, f, Kept);
  }

  lemma ParsedRowsKept(title: Value, parsed: Value)
    requires ParsedRows(title, parsed).Ok?
    ensures forall y :: y in ParsedRows(title, parsed).value ==> Kept(y)
  {
    var sections := Iterate(parsed).value;
    var f := SectionRowsOf(title);
    forall i | 0 <= i < |sections| && f(sections[i]).Ok? ensures forall y :: y in f(sections[i]).value ==> Kept(y) {
      SectionRowsKept(title, sections[i]);
    }
    ConcatMapAll(sections, f, Kept);
  }

  lemma ResponseRowsKept(parse: Value -> Result<Value, string>, row: Value)
    requires ResponseRows(parse, row).Ok?
    ensures forall y :: y in ResponseRows(parse, row).value ==> Kept(y)
  {
    var title := Item(row, "title").value;
    var items := Iterate(parse(Item(row, "response").value).value).value;
    var f := ParsedRowsOf(title);
    forall i | 0 <= i < |items| && f(items[i]).Ok? ensures forall y :: y in f(items[i]).value ==> Kept(y) {
      ParsedRowsKept(title, items[i]);
    }
    ConcatMapAll(items, f, Kept);
  }

  /** The rows before sorting all cite a reference and have a title. */
  lemma CollectedKept(parse: Value -> Result<Value, string>, rows: seq<Value>)
    requires ConcatMap(rows, ResponseRowsOf(parse)).Ok?
    ensures forall y :: y in ConcatMap(rows, ResponseRowsOf(parse)).value ==> Kept(y)
  {
    var f := ResponseRowsOf(parse);
    forall i | 0 <= i < |rows| && f(rows[i]).Ok? ensures forall y :: y in f(rows[i]).value ==> Kept(y) {
      ResponseRowsKept(parse, rows[i]);
    }
    ConcatMapAll(rows, f, Kept);
  }

  /** The JSON aggregation raises exactly when some response line raises, with the first such
      exception (the sort never raises, as every row has a title). Otherwise its result is
      the collected rows reordered: sorted by title, stable among equal titles, every row
      citing a reference. */
  lemma JsonResultsSpec(parse: Value -> Result<Value, string>, rows: seq<Value>, k: Dict)
    ensures JsonResults(parse, rows).Ok? <==> ConcatMap(rows, ResponseRowsOf(parse)).Ok?
    ensures JsonResults(parse, rows).Err? ==> JsonResults(parse, rows) == Err(ConcatMap(rows, ResponseRowsOf(parse)).error)
    ensures JsonResults(parse, rows).Ok? ==>
              var all, out := ConcatMap(rows, ResponseRowsOf(parse)).value, JsonResults(parse, rows).value;
              multiset(out) == multiset(all) &&
              (forall i, j :: 0 <= i < j < |out| ==> StrLe(RowKey(out[i], "title"), RowKey(out[j], "title"))) &&
              Filter(out, EquivalentTo(k, RowLe("title"))) == Filter(all, EquivalentTo(k, RowLe("title"))) &&
              (forall y :: y in out ==> Kept(y))
  {
    var collected := ConcatMap(rows, ResponseRowsOf(parse));
    if collected.Ok? {
      var all := collected.value;
      CollectedKept(parse, rows);
      assert forall i :: 0 <= i < |all| ==> HasKey(all[i], "title") by {
        forall i | 0 <= i < |all| ensures HasKey(all[i], "title") {
          assert Kept(all[i]);
        }
      }
      SortRowsBySpec(all, "title", k);
      var out := JsonResults(parse, rows).value;
      forall y | y in out ensures Kept(y) {
        assert y in multiset(out);
      }
    }
  }

  /** The body of the innermost loop: the triplet's row, appended when it cites a
      reference. */
  method AppendTriplet(results: seq<Dict>, title: Value, subsection: Value, triplet: Value)
    returns (r: Result<seq<Dict>, string>)
    ensures r == Appended(results, TripletRows(title, subsection, triplet))
  {
    var row := TripletRow(title, subsection, triplet);
    if row.Err? {
      return Err(row.error);
    }
    var keep := ContainsRef(row.value);
    if keep.Err? {
      return Err(keep.error);
    }
    if keep.value {
      r := Ok(results + [row.value]);
    } else {
      assert results + [] == results;
      r := Ok(results);
    }
  }

  /** `for triplet in triplets`. */
  method AppendTripletRows(results: seq<Dict>, title: Value, subsection: Value, triplets: seq<Value>)
    returns (r: Result<seq<Dict>, string>)
    ensures r == Appended(results, ConcatMap(triplets, TripletRowsOf(title, subsection)))
  {
    var acc := results;
    for n := 0 to |triplets|
      invariant ConcatMap(triplets[..n], TripletRowsOf(title, subsection)).Ok?
      invariant acc == results + ConcatMap(triplets[..n], TripletRowsOf(title, subsection)).value
    {
      var next := AppendTriplet(acc, title, subsection, triplets[n]);
      ConcatMapLoop(triplets, TripletRowsOf(title, subsection), n, results, acc, next);
      if next.Err? {
        return next;
      }
      acc := next.value;
    }
    assert triplets[..|triplets|] == triplets;
    return Ok(acc);
  }

  /** The body of `for section_data in parsed`: the section's fields, then its triplets. */
  method AppendSection(results: seq<Dict>, title: Value, section: Value) returns (r: Result<seq<Dict>, string>)
    ensures r == Appended(results, SectionRows(title, section))
  {
    var subsection := DictGet(section, "subsection", Null);
    if subsection.Err? {
      return Err(subsection.error);
    }
    var triplets := DictGet(section, "triplets", Arr([]));
    var items := Iterate(triplets.value);
    if items.Err? {
      return Err(items.error);
    }
    r := AppendTripletRows(results, title, subsection.value, items.value);
  }

  /** `for section_data in parsed`. */
  method AppendSectionRows(results: seq<Dict>, title: Value, sections: seq<Value>)
    returns (r: Result<seq<Dict>, string>)
    ensures r == Appended(results, ConcatMap(sections, SectionRowsOf(title)))
  {
    var acc := results;
    for n := 0 to |sections|
      invariant ConcatMap(sections[..n], SectionRowsOf(title)).Ok?
      invariant acc == results + ConcatMap(sections[..n], SectionRowsOf(title)).value
    {
      var next := AppendSection(acc, title, sections[n]);
      ConcatMapLoop(sections, SectionRowsOf(title), n, results, acc, next);
      if next.Err? {
        return next;
      }
      acc := next.value;
    }
    assert sections[..|sections|] == sections;
    return Ok(acc);
  }

  /** The body of `for parsed in parsed_json`: the element's sections. */
  method AppendParsed(results: seq<Dict>, title: Value, parsed: Value) returns (r: Result<seq<Dict>, string>)
    ensures r == Appended(results, ParsedRows(title, parsed))
  {
    var sections := Iterate(parsed);
    if sections.Err? {
      return Err(sections.error);
    }
    r := AppendSectionRows(results, title, sections.value);
  }

  /** `for parsed in parsed_json`. */
  method AppendParsedRows(results: seq<Dict>, title: Value, items: seq<Value>)
    returns (r: Result<seq<Dict>, string>)
    ensures r == Appended(results, ConcatMap(items, ParsedRowsOf(title)))
  {
    var acc := results;
    for n := 0 to |items|
      invariant ConcatMap(items[..n], ParsedRowsOf(title)).Ok?
      invariant acc == results + ConcatMap(items[..n], ParsedRowsOf(title)).value
    {
      var next := AppendParsed(acc, title, items[n]);
      ConcatMapLoop(items, ParsedRowsOf(title), n, results, acc, next);
      if next.Err? {
        return next;
      }
      acc := next.value;
    }
    assert items[..|items|] == items;
    return Ok(acc);
  }

  /** The body of `for row in rows`: the fields of the line, the parsed response, then its
      elements. */
  method AppendResponse(results: seq<Dict>, parse: Value -> Result<Value, string>, row: Value)
    returns (r: Result<seq<Dict>, string>)
    ensures r == Appended(results, ResponseRows(parse, row))
  {
    var response := Item(row, "response");
    if response.Err? {
      return Err(response.error);
    }
    var from := Item(row, "from");
    if from.Err? {
      return Err(from.error);
    }
    var path := PathArg(from.value);
    if path.Err? {
      return Err(path.error);
    }
    var title := Item(row, "title");
    if title.Err? {
      return Err(title.error);
    }
    var parsedJson := parse(response.value);
    if parsedJson.Err? {
      return Err(parsedJson.error);
    }
    var items := Iterate(parsedJson.value);
    if items.Err? {
      return Err(items.error);
    }
    r := AppendParsedRows(results, title.value, items.value);
  }

  /** `aggregate_results_json`, with the decoded response lines and the parser given: the
      rows it writes, in the order it writes them. */
  method AggregateResultsJson(parse: Value -> Result<Value, string>, rows: seq<Value>)
    returns (r: Result<seq<Dict>, string>)
    ensures r == JsonResults(parse, rows)
  {
    var results: seq<Dict> := [];
    for n := 0 to |rows|
      invariant ConcatMap(rows[..n], ResponseRowsOf(parse)).Ok?
      invariant results == ConcatMap(rows[..n], ResponseRowsOf(parse)).value
    {
      var next := AppendResponse(results, parse, rows[n]);
      ConcatMapLoop(rows, ResponseRowsOf(parse), n, [], results, next);
      if next.Err? {
        return next;
      }
      results := next.value;
    }
    assert rows[..|rows|] == rows;
    r := SortRowsBy(results, "title");
  }

  // ---------------------------------------------------------------------------------------
  // Markdown-built runs
  // ---------------------------------------------------------------------------------------

  /** The row of one parsed object: `{"from": Path(row["from"]).stem, **new_result}`, the
      path read afresh for every object. */
  function ResultRow(row: Value, newResult: Value): Result<seq<Dict>, string> {
    var from :- Item(row, "from");
    var path :- PathArg(from);
    var fields :- MappingOf(newResult);
    var head: Dict := [("from", Str(Paths.Stem(path)))];
    Ok([Spread(head, fields)])
  }

  function ResultRowOf(row: Value): Value -> Result<seq<Dict>, string> {
    (newResult: Value) => ResultRow(row, newResult)
  }

  /** What `parse_json_from_text` gives for a response, with None read as no objects. */
  function ParsedOrEmpty(parsed: Option<Value>): Value {
    match parsed
    case None => Arr([])
    case Some(v) => v
  }

  /** The rows of one response line: one per parsed object. */
  function MarkdownResponseRows(parseText: Value -> Option<Value>, row: Value): Result<seq<Dict>, string> {
    var response :- Item(row, "response");
    var items :- Iterate(ParsedOrEmpty(parseText(response)));
    ConcatMap(items, ResultRowOf(row))
  }

  function MarkdownResponseRowsOf(parseText: Value -> Option<Value>): Value -> Result<seq<Dict>, string> {
    (row: Value) => MarkdownResponseRows(parseText, row)
  }

  /** `aggregate_results_markdown` up to the files it writes: every response's rows, sorted
      by `from`. */
  function MarkdownResults(parseText: Value -> Option<Value>, rows: seq<Value>): Result<seq<Dict>, string> {
    var results :- ConcatMap(rows, MarkdownResponseRowsOf(parseText));
    SortRowsBy(results, "from")
  }

  /** The row of an object: its own fields, over `from` set to the stem of the file. */
  lemma ResultRowSpec(row: Value, newResult: Value)
    requires ResultRow(row, newResult).Ok?
    ensures newResult.Obj? && |ResultRow(row, newResult).value| == 1
    ensures var out, fields := ResultRow(row, newResult).value[0], AsDict(newResult).value;
            var stem := Paths.Stem(Item(row, "from").value.s);
            HasKey(out, "from") &&
            Lookup(out, "from") == (if HasKey(fields, "from") then Lookup(fields, "from") else Some(Str(stem))) &&
            forall k :: HasKey(fields, k) ==> Lookup(out, k) == Lookup(fields, k)
  {
    var fields := AsDict(newResult).value;
    var head: Dict := [("from", Str(Paths.Stem(Item(row, "from").value.s)))];
    SpreadAll(head, fields);
    assert HasKey(head, "from");
  }

  /** A response the parser cannot read gives no rows, and `from` is then not even read. */
  lemma UnparsedResponse(parseText: Value -> Option<Value>, row: Value)
    requires Item(row, "response").Ok? && parseText(Item(row, "response").value).None?
    ensures MarkdownResponseRows(parseText, row) == Ok([])
  {
  }

  /** A response that does not raise gives one row per parsed object, in their order; it
      raises exactly when the row of some object raises. */
  lemma MarkdownResponseRowsCount(parseText: Value -> Option<Value>, row: Value, items: seq<Value>)
    requires Item(row, "response").Ok?
    requires Iterate(ParsedOrEmpty(parseText(Item(row, "response").value))) == Ok(items)
    ensures MarkdownResponseRows(parseText, row).Ok? <==> forall i :: 0 <= i < |items| ==> ResultRow(row, items[i]).Ok?
    ensures MarkdownResponseRows(parseText, row).Ok? ==>
              |MarkdownResponseRows(parseText, row).value| == |items| &&
              forall i :: 0 <= i < |items| ==> MarkdownResponseRows(parseText, row).value[i] == ResultRow(row, items[i]).value[0]
  {
    ConcatMapOk(items, ResultRowOf(row));
    if MarkdownResponseRows(parseText, row).Ok? {
      forall i | 0 <= i < |items| ensures ResultRowOf(row)(items[i]).Ok? && |ResultRowOf(row)(items[i]).value| == 1 {
        ResultRowSpec(row, items[i]);
      }
      ConcatMapSingles(items, ResultRowOf(row));
    }
  }

  /** A row of the Markdown aggregation: it has a `from`. */
  predicate HasFrom(y: Dict) {
    HasKey(y, "from")
  }

  lemma ResponseRowsHaveFrom(parseText: Value -> Option<Value>, row: Value)
    requires MarkdownResponseRows(parseText, row).Ok?
    ensures forall y :: y in MarkdownResponseRows(parseText, row).value ==> HasFrom(y)
  {
    var items := Iterate(ParsedOrEmpty(parseText(Item(row, "response").value))).value;
    forall i, y | 0 <= i < |items| && ResultRowOf(row)(items[i]).Ok? && y in ResultRowOf(row)(items[i]).value
      ensures HasFrom(y)
    {
      ResultRowSpec(row, items[i]);
    }
    ConcatMapAll(items, ResultRowOf(row), HasFrom);
  }

  /** Every row the Markdown aggregation collects has a `from`. */
  lemma MarkdownRowsHaveFrom(parseText: Value -> Option<Value>, rows: seq<Value>)
    requires ConcatMap(rows, MarkdownResponseRowsOf(parseText)).Ok?
    ensures forall y :: y in ConcatMap(rows, MarkdownResponseRowsOf(parseText)).value ==> HasFrom(y)
  {
    var f := MarkdownResponseRowsOf(parseText);
    forall i, y | 0 <= i < |rows| && f(rows[i]).Ok? && y in f(rows[i]).value ensures HasFrom(y) {
      ResponseRowsHaveFrom(parseText, rows[i]);
    }
    ConcatMapAll(rows, f, HasFrom);
  }

  /** The Markdown aggregation raises exactly when some response line raises (the sort never
      raises); otherwise it returns the collected rows sorted by `from`, stable among equal
      stems. */
  lemma MarkdownResultsSpec(parseText: Value -> Option<Value>, rows: seq<Value>, k: Dict)
    ensures MarkdownResults(parseText, rows).Ok? <==> ConcatMap(rows, MarkdownResponseRowsOf(parseText)).Ok?
    ensures MarkdownResults(parseText, rows).Ok? ==>
              var all, out := ConcatMap(rows, MarkdownResponseRowsOf(parseText)).value, MarkdownResults(parseText, rows).value;
              multiset(out) == multiset(all) &&
              (forall i, j :: 0 <= i < j < |out| ==> StrLe(RowKey(out[i], "from"), RowKey(out[j], "from"))) &&
              Filter(out, EquivalentTo(k, RowLe("from"))) == Filter(all, EquivalentTo(k, RowLe("from")))
  {
    var collected := ConcatMap(rows, MarkdownResponseRowsOf(parseText));
    if collected.Ok? {
      var all := collected.value;
      MarkdownRowsHaveFrom(parseText, rows);
      assert forall i :: 0 <= i < |all| ==> HasKey(all[i], "from") by {
        forall i | 0 <= i < |all| ensures HasKey(all[i], "from") {
          assert all[i] in all;
        }
      }
      SortRowsBySpec(all, "from", k);
    }
  }

  /** The body of `for new_result in parsed`. */
  method AppendResult(results: seq<Dict>, row: Value, newResult: Value) returns (r: Result<seq<Dict>, string>)
    ensures r == Appended(results, ResultRow(row, newResult))
  {
    var from := Item(row, "from");
    if from.Err? {
      return Err(from.error);
    }
    var path := PathArg(from.value);
    if path.Err? {
      return Err(path.error);
    }
    var fields := MappingOf(newResult);
    if fields.Err? {
      return Err(fields.error);
    }
    var head: Dict := [("from", Str(Paths.Stem(path.value)))];
    r := Ok(results + [Spread(head, fields.value)]);
  }

  /** `for new_result in parsed`: one row per parsed object. */
  method AppendResultRows(results: seq<Dict>, row: Value, items: seq<Value>)
    returns (r: Result<seq<Dict>, string>)
    ensures r == Appended(results, ConcatMap(items, ResultRowOf(row)))
  {
    var acc := results;
    for n := 0 to |items|
      invariant ConcatMap(items[..n], ResultRowOf(row)).Ok?
      invariant acc == results + ConcatMap(items[..n], ResultRowOf(row)).value
    {
      var next := AppendResult(acc, row, items[n]);
      ConcatMapLoop(items, ResultRowOf(row), n, results, acc, next);
      if next.Err? {
        return next;
      }
      acc := next.value;
    }
    assert items[..|items|] == items;
    return Ok(acc);
  }

  /** The body of `for row in rows`: the parsed response, None read as no objects. */
  method AppendMarkdownResponse(results: seq<Dict>, parseText: Value -> Option<Value>, row: Value)
    returns (r: Result<seq<Dict>, string>)
    ensures r == Appended(results, MarkdownResponseRows(parseText, row))
  {
    var response := Item(row, "response");
    if response.Err? {
      return Err(response.error);
    }
    var parsed := ParsedOrEmpty(parseText(response.value));
    var items := Iterate(parsed);
    if items.Err? {
      return Err(items.error);
    }
    r := AppendResultRows(results, row, items.value);
  }

  /** `aggregate_results_markdown`, with the decoded response lines and the parser given. */
  method AggregateResultsMarkdown(parseText: Value -> Option<Value>, rows: seq<Value>)
    returns (r: Result<seq<Dict>, string>)
    ensures r == MarkdownResults(parseText, rows)
  {
    var results: seq<Dict> := [];
    for n := 0 to |rows|
      invariant ConcatMap(rows[..n], MarkdownResponseRowsOf(parseText)).Ok?
      invariant results == ConcatMap(rows[..n], MarkdownResponseRowsOf(parseText)).value
    {
      var next := AppendMarkdownResponse(results, parseText, rows[n]);
      ConcatMapLoop(rows, MarkdownResponseRowsOf(parseText), n, [], results, next);
      if next.Err? {
        return next;
      }
      results := next.value;
    }
    assert rows[..|rows|] == rows;
    r := SortRowsBy(results, "from");
  }

  // ---------------------------------------------------------------------------------------
  // Dispatch
  // ---------------------------------------------------------------------------------------

  /** `aggregate_results`: the aggregation the format names. */
  function AggregateResults(format: string, parse: Value -> Result<Value, string>, parseText: Value -> Option<Value>,
                            rows: seq<Value>): Result<seq<Dict>, string>
  {
    var f :- ParseFormat(format);
    match f
    case JsonFormat => JsonResults(parse, rows)
    case MarkdownFormat => MarkdownResults(parseText, rows)
  }

  /** An unknown format raises the ValueError before any response is read; the two known
      ones run their own aggregation and nothing of the other. */
  lemma AggregateDispatch(format: string, parse: Value -> Result<Value, string>, parseText: Value -> Option<Value>,
                          rows: seq<Value>)
    ensures format != "json" && format != "markdown" ==>
              AggregateResults(format, parse, parseText, rows) == Err("Unsupported input format: " + format)
    ensures format == "json" ==> AggregateResults(format, parse, parseText, rows) == JsonResults(parse, rows)
    ensures format == "markdown" ==> AggregateResults(format, parse, parseText, rows) == MarkdownResults(parseText, rows)
  {
  }
}
