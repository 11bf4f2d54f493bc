/** src/gemini-experiments/extract.py: the PDF prompts (the template with the paper left
    out, the PDF attached by path) and one CSV of triplet rows per response line, titled by
    the line or, failing that, by the parsed reply.

    The PDFs are given as the (path, resolved path) pairs the folder listing produces, in
    listing order; the template is a parameter. The responses are the values `read_jsonl`
    decoded, and `parse_json` is a function parameter receiving the value of the `response`
    field. */
module GeminiExtract {
  import opened Wrappers
  import opened Json
  import opened Seqs
  import opened Extractions
  import Paths
  import Text

  const Placeholder := "{{paper}}"

  /** The record of one PDF. */
  function PdfRecord(textPart: string, pdf: (string, string)): Dict {
    [("prompt", Str(textPart)), ("file_path", Str(pdf.1)), ("from", Str(pdf.0))]
  }

  /** `build_prompts_from_pdfs` up to the file it writes. */
  function PdfPrompts(template: string, pdfs: seq<(string, string)>): seq<Dict> {
    var textPart := Text.Replace(template, Placeholder, "");
    seq(|pdfs|, i requires 0 <= i < |pdfs| => PdfRecord(textPart, pdfs[i]))
  }

  /** One record per PDF, in listing order: every record carries the same prompt, the
      template with `{{paper}}` replaced by nothing, and the PDF's resolved path and path. */
  lemma PdfPromptsSpec(template: string, pdfs: seq<(string, string)>)
    ensures |PdfPrompts(template, pdfs)| == |pdfs|
    ensures forall i :: 0 <= i < |pdfs| ==>
              var r := PdfPrompts(template, pdfs)[i];
              Lookup(r, "prompt") == Some(Str(Text.Replace(template, Placeholder, ""))) &&
              Lookup(r, "file_path") == Some(Str(pdfs[i].1)) &&
              Lookup(r, "from") == Some(Str(pdfs[i].0)) && |r| == 3
  {
    var textPart := Text.Replace(template, Placeholder, "");
    forall i | 0 <= i < |pdfs| ensures var r := PdfRecord(textPart, pdfs[i]);
      Lookup(r, "file_path") == Some(Str(pdfs[i].1)) && Lookup(r, "from") == Some(Str(pdfs[i].0))
    {
      IndexOfIs(PdfRecord(textPart, pdfs[i]), "file_path", 1);
      IndexOfIs(PdfRecord(textPart, pdfs[i]), "from", 2);
    }
  }

  /** `build_prompts_from_pdfs`: the prompt text is built once, then one record is appended
      per PDF. */
  method BuildPromptsFromPdfs(template: string, pdfs: seq<(string, string)>) returns (prompts: seq<Dict>)
    ensures prompts == PdfPrompts(template, pdfs)
  {
    var textPart := Text.Replace(template, Placeholder, "");
    prompts := [];
    for i := 0 to |pdfs|
      invariant prompts == PdfPrompts(template, pdfs[..i])
    {
      prompts := prompts + [[("prompt", Str(textPart)), ("file_path", Str(pdfs[i].1)), ("from", Str(pdfs[i].0))]];
    }
    assert pdfs[..|pdfs|] == pdfs;
  }

  // ---------------------------------------------------------------------------------------
  // Aggregation
  // ---------------------------------------------------------------------------------------

  /** `row.get("title") if "title" in row else parsed_json.get("paper_title")`. */
  function Title(row: Value, parsedJson: Value): Result<Value, string> {
    var inRow :- In("title", row);
    if inRow then DictGet(row, "title", Null) else DictGet(parsedJson, "paper_title", Null)
  }

  /** On a line that is an object, the title is the line's own `title` when it has one, and
      otherwise the parsed reply's `paper_title` (None when it has none, an AttributeError
      when the reply is not an object). */
  lemma TitleSpec(row: Value, parsedJson: Value)
    requires row.Obj?
    ensures HasKey(AsDict(row).value, "title") ==> Title(row, parsedJson) == Ok(Lookup(AsDict(row).value, "title").value)
    ensures !HasKey(AsDict(row).value, "title") ==>
              Title(row, parsedJson) == DictGet(parsedJson, "paper_title", Null) &&
              (parsedJson.Obj? <==> Title(row, parsedJson).Ok?) &&
              (parsedJson.Obj? ==> Title(row, parsedJson) == Ok(Get(AsDict(parsedJson).value, "paper_title", Null)))
  {
    HasKeyIsLookup(AsDict(row).value, "title");
  }

  /** The CSV of one response line: `response` and `from` are read, the first element of
      the parsed reply gives the title when the line has none and the extractions, and the
      rows go to `<stem>.csv`. */
  function ResponseCsv(parse: Value -> Result<Value, string>, row: Value): Result<Csv, string> {
    var response :- Item(row, "response");
    var from :- Item(row, "from");
    var path :- PathArg(from);
    var parsed :- parse(response);
    var parsedJson :- First(parsed);
    var title :- Title(row, parsedJson);
    var extractionsValue :- Item(parsedJson, "extractions");
    var extractions :- Iterate(extractionsValue);
    var rows :- ExtractionsRows(title, extractions);
    Ok(Csv(Paths.Stem(path) + ".csv", rows))
  }

  function ResponseCsvOf(parse: Value -> Result<Value, string>): Value -> Result<Csv, string> {
    (row: Value) => ResponseCsv(parse, row)
  }

  /** A line's CSV is named after the stem of its `from` and holds only that line's rows:
      one per triplet of the extractions, each carrying the title the line or the reply
      gives. */
  lemma ResponseCsvSpec(parse: Value -> Result<Value, string>, row: Value)
    requires ResponseCsv(parse, row).Ok?
    ensures var csv, parsedJson := ResponseCsv(parse, row).value, First(parse(Item(row, "response").value).value).value;
            var title, extractions := Title(row, parsedJson).value, Iterate(Item(parsedJson, "extractions").value).value;
            csv.name == Paths.Stem(Item(row, "from").value.s) + ".csv" &&
            csv.rows == ExtractionsRows(title, extractions).value &&
            |csv.rows| == TotalTriplets(extractions)
  {
    var parsedJson := First(parse(Item(row, "response").value).value).value;
    ExtractionsRowsCount(Title(row, parsedJson).value, Iterate(Item(parsedJson, "extractions").value).value);
  }

  /** `aggregate_results` up to the files it writes: the CSVs, one per response line. */
  function AggregateRun(parse: Value -> Result<Value, string>, rows: seq<Value>): Run {
    Writes(rows, ResponseCsvOf(parse))
  }

  /** The body of `for row in read_jsonl(...)`. */
  method ResponseTable(parse: Value -> Result<Value, string>, row: Value) returns (r: Result<Csv, string>)
    ensures r == ResponseCsv(parse, row)
  {
    var response := Item(row, "response");
    if response.Err? {
      return Err(response.error);
    }
    var from := Item(row, "from");
    if from.Err? {
      return Err(from.error);
    }
    var path := PathArg(from.value);
    if path.Err? {
      return Err(path.error);
    }
    var filestem := Paths.Stem(path.value);
    var parsed := parse(response.value);
    if parsed.Err? {
      return Err(parsed.error);
    }
    var parsedJson := First(parsed.value);
    if parsedJson.Err? {
      return Err(parsedJson.error);
    }
    var title := Title(row, parsedJson.value);
    if title.Err? {
      return Err(title.error);
    }
    var extractionsValue := Item(parsedJson.value, "extractions");
    if extractionsValue.Err? {
      return Err(extractionsValue.error);
    }
    var extractions := Iterate(extractionsValue.value);
    if extractions.Err? {
      return Err(extractions.error);
    }
    var results := CollectRows(title.value, extractions.value);
    if results.Err? {
      return Err(results.error);
    }
    r := Ok(Csv(filestem + ".csv", results.value));
  }

  /** `aggregate_results`, with the decoded response lines and the parser given: the CSVs
      written, and the exception that stopped the loop, if any. */
  method AggregateResults(parse: Value -> Result<Value, string>, rows: seq<Value>) returns (run: Run)
    ensures run == AggregateRun(parse, rows)
  {
    var written: seq<Csv> := [];
    for n := 0 to |rows|
      invariant Writes(rows[..n], ResponseCsvOf(parse)) == Run(written, None)
    {
      WritesStep(rows, ResponseCsvOf(parse), n);
      var csv := ResponseTable(parse, rows[n]);
      if csv.Err? {
        WritesRaisedPrefix(rows, ResponseCsvOf(parse), n + 1);
        return Run(written, Some(csv.error));
      }
      written := written + [csv.value];
    }
    assert rows[..|rows|] == rows;
    return Run(written, None);
  }
}
