/** src/experiments/extract.py: one extraction prompt per paper, built from the paper's
    intro and results, and one CSV of triplet rows per response line.

    The papers are given as the (path, paper) pairs the folder listing and `read_json`
    produce, in listing order; the template is a parameter (its text is not part of this
    model). The responses are the values `read_jsonl` decoded, and `parse_json` is a function
    parameter receiving the value of the `response` field. */
module ExperimentsExtract {
  import opened Wrappers
  import opened Json
  import opened Seqs
  import opened Extractions
  import opened DocumentBuilder
  import Paths
  import Text

  const Placeholder := "{{paper}}"

  /** `data.get("article_title", "Untitled Article")`. */
  function ArticleTitle(data: Paper): string {
    data.articleTitle.GetOr("Untitled Article")
  }

  /** The documents `generate_document` builds here: intro and results, with figures, no
      discussion, not chunked. */
  function PaperDocuments(data: Paper): seq<string> {
    Documents(data, true, true, false, false, true)
  }

  /** The one document of a paper: its intro, then `## Results` and every subsection. */
  function PaperDocument(data: Paper): string {
    IntroMd(data) + "## Results\n\n" + AllSubsectionsMd(data.subsections, true)
  }

  /** The record of one document. */
  function PromptRecord(template: string, path: string, title: string, doc: string): Dict {
    [("prompt", Str(Text.Replace(template, Placeholder, doc))), ("title", Str(title)), ("from", Str(path))]
  }

  /** The records of one paper, one per document. */
  function FilePrompts(template: string, path: string, data: Paper): seq<Dict> {
    var docs := PaperDocuments(data);
    seq(|docs|, i requires 0 <= i < |docs| => PromptRecord(template, path, ArticleTitle(data), docs[i]))
  }

  /** The records of all papers, in listing order. */
  function Prompts(template: string, files: seq<(string, Paper)>): seq<Dict>
    decreases |files|
  {
    if files == [] then []
    else
      var last := files[|files| - 1];
      Prompts(template, files[..|files| - 1]) + FilePrompts(template, last.0, last.1)
  }

  /** With these switches a paper always gives exactly one document, its intro followed by
      its results. */
  lemma PaperDocumentsSingle(data: Paper)
    ensures PaperDocuments(data) == [PaperDocument(data)]
  {
    assert IntroMd(data) + ("## Results\n\n" + AllSubsectionsMd(data.subsections, true)) + "" == PaperDocument(data);
  }

  /** The fields of a record: the template with the document in place of `{{paper}}`, the
      title, and the path. */
  lemma PromptRecordFields(template: string, path: string, title: string, doc: string)
    ensures var r := PromptRecord(template, path, title, doc);
            Lookup(r, "prompt") == Some(Str(Text.Replace(template, Placeholder, doc))) &&
            Lookup(r, "title") == Some(Str(title)) && Lookup(r, "from") == Some(Str(path)) &&
            |r| == 3
  {
    var r := PromptRecord(template, path, title, doc);
    IndexOfIs(r, "title", 1);
    IndexOfIs(r, "from", 2);
  }

  /** One record per paper, in listing order, each built from that paper's single
      document. */
  lemma {:induction false} PromptsSpec(template: string, files: seq<(string, Paper)>)
    ensures |Prompts(template, files)| == |files|
    ensures forall i :: 0 <= i < |files| ==>
              Prompts(template, files)[i] ==
              PromptRecord(template, files[i].0, ArticleTitle(files[i].1), PaperDocument(files[i].1))
    decreases |files|
  {
    if files != [] {
      var n := |files| - 1;
      PromptsSpec(template, files[..n]);
      PaperDocumentsSingle(files[n].1);
      assert forall i :: 0 <= i < n ==> files[..n][i] == files[i];
    }
  }

  /** The body of `for json_file in ...`: the paper's documents, one record appended per
      document. */
  method AppendFilePrompts(prompts: seq<Dict>, template: string, path: string, data: Paper)
    returns (r: seq<Dict>)
    ensures r == prompts + FilePrompts(template, path, data)
  {
    var title := ArticleTitle(data);
    var documents := GenerateDocument(data, true, true, false, false, true);
    r := prompts;
    for i := 0 to |documents|
      invariant r == prompts + FilePrompts(template, path, data)[..i]
    {
      var prompt := Text.Replace(template, Placeholder, documents[i]);
      r := r + [[("prompt", Str(prompt)), ("title", Str(title)), ("from", Str(path))]];
      assert FilePrompts(template, path, data)[..i + 1] == FilePrompts(template, path, data)[..i] + [FilePrompts(template, path, data)[i]];
    }
    assert FilePrompts(template, path, data)[..|documents|] == FilePrompts(template, path, data);
  }

  /** `build_prompts` up to the file it writes: the records, in order. */
  method BuildPrompts(template: string, files: seq<(string, Paper)>) returns (prompts: seq<Dict>)
    ensures prompts == Prompts(template, files)
  {
    prompts := [];
    for n := 0 to |files|
      invariant prompts == Prompts(template, files[..n])
    {
      assert files[..n + 1][..n] == files[..n];
      prompts := AppendFilePrompts(prompts, template, files[n].0, files[n].1);
    }
    assert files[..|files|] == files;
  }

  // ---------------------------------------------------------------------------------------
  // Aggregation
  // ---------------------------------------------------------------------------------------

  /** The CSV of one response line: `response`, `title` and `from` are read, the first
      element of the parsed reply gives the extractions, and the rows go to `<stem>.csv`. */
  function ResponseCsv(parse: Value -> Result<Value, string>, row: Value): Result<Csv, string> {
    var response :- Item(row, "response");
    var title :- Item(row, "title");
    var from :- Item(row, "from");
    var path :- PathArg(from);
    var parsed :- parse(response);
    var parsedJson :- First(parsed);
    var extractionsValue :- Item(parsedJson, "extractions");
    var extractions :- Iterate(extractionsValue);
    var rows :- ExtractionsRows(title, extractions);
    Ok(Csv(Paths.Stem(path) + ".csv", rows))
  }

  function ResponseCsvOf(parse: Value -> Result<Value, string>): Value -> Result<Csv, string> {
    (row: Value) => ResponseCsv(parse, row)
  }

  /** A line's CSV is named after the stem of its `from`, and holds only that line's rows:
      one per triplet of the extractions, each carrying the line's title. */
  lemma ResponseCsvSpec(parse: Value -> Result<Value, string>, row: Value)
    requires ResponseCsv(parse, row).Ok?
    ensures var csv, title := ResponseCsv(parse, row).value, Item(row, "title").value;
            var extractions := Iterate(Item(First(parse(Item(row, "response").value).value).value, "extractions").value).value;
            csv.name == Paths.Stem(Item(row, "from").value.s) + ".csv" &&
            csv.rows == ExtractionsRows(title, extractions).value &&
            |csv.rows| == TotalTriplets(extractions)
  {
    var title := Item(row, "title").value;
    var extractions := Iterate(Item(First(parse(Item(row, "response").value).value).value, "extractions").value).value;
    ExtractionsRowsCount(title, extractions);
  }

  /** `aggregate_results` up to the files it writes: the CSVs, one per response line. */
  function AggregateRun(parse: Value -> Result<Value, string>, rows: seq<Value>): Run {
    Writes(rows, ResponseCsvOf(parse))
  }

  /** The body of `for row in read_jsonl(...)`. */
  method ResponseTable(parse: Value -> Result<Value, string>, row: Value) returns (r: Result<Csv, string>)
    ensures r == ResponseCsv(parse, row)
  {
    var response := Item(row, "response");
    if response.Err? {
      return Err(response.error);
    }
    var title := Item(row, "title");
    if title.Err? {
      return Err(title.error);
    }
    var from := Item(row, "from");
    if from.Err? {
      return Err(from.error);
    }
    var path := PathArg(from.value);
    if path.Err? {
      return Err(path.error);
    }
    var filestem := Paths.Stem(path.value);
    var parsed := parse(response.value);
    if parsed.Err? {
      return Err(parsed.error);
    }
    var parsedJson := First(parsed.value);
    if parsedJson.Err? {
      return Err(parsedJson.error);
    }
    var extractionsValue := Item(parsedJson.value, "extractions");
    if extractionsValue.Err? {
      return Err(extractionsValue.error);
    }
    var extractions := Iterate(extractionsValue.value);
    if extractions.Err? {
      return Err(extractions.error);
    }
    var results := CollectRows(title.value, extractions.value);
    if results.Err? {
      return Err(results.error);
    }
    r := Ok(Csv(filestem + ".csv", results.value));
  }

  /** `aggregate_results`, with the decoded response lines and the parser given: the CSVs
      written, and the exception that stopped the loop, if any. */
  method AggregateResults(parse: Value -> Result<Value, string>, rows: seq<Value>) returns (run: Run)
    ensures run == AggregateRun(parse, rows)
  {
    var written: seq<Csv> := [];
    for n := 0 to |rows|
      invariant Writes(rows[..n], ResponseCsvOf(parse)) == Run(written, None)
    {
      WritesStep(rows, ResponseCsvOf(parse), n);
      var csv := ResponseTable(parse, rows[n]);
      if csv.Err? {
        WritesRaisedPrefix(rows, ResponseCsvOf(parse), n + 1);
        return Run(written, Some(csv.error));
      }
      written := written + [csv.value];
    }
    assert rows[..|rows|] == rows;
    return Run(written, None);
  }
}
