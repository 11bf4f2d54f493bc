/** src/prediction/predict.py: the prediction prompts for curated Q1/Q2 triplets, each the
    paper's intro followed by the triplet's query in the template its type selects, and the
    rows that pair each triplet with the context and outcome the model predicted.

    The paper and the triplets are given as `read_json` and `read_tsv` produce them (a
    `Paper`, a list of dicts); the two templates are parameters, as their text is not part of
    this model. The responses are the values `read_jsonl` decoded, and `parse_json` is a
    function parameter receiving the value of the `response` field. */
module Predict {
  import opened Wrappers
  import opened Json
  import opened Seqs
  import opened DocumentBuilder
  import Text

  const MainPlaceholder := "{{main_content}}"

  /** The two prediction templates. */
  datatype Templates = Templates(q1: string, q2: string)

  /** The template for a content type: the Q1 template exactly when "Q1" occurs in the type,
      a TypeError when the type cannot hold a substring. */
  function TemplateFor(templates: Templates, contentType: Value): Result<string, string> {
    var isQ1 :- In("Q1", contentType);
    Ok(if isQ1 then templates.q1 else templates.q2)
  }

  /** The text put in place of `{{main_content}}`: the prefix, a blank line, then the
      query. */
  function QueryContent(prefix: string, query: Value): string {
    prefix + "\n\nQUERY: " + Render(query)
  }

  /** `d[k]` on a dict: a KeyError naming the key when it is absent. */
  function Field(d: Dict, k: string): Result<Value, string> {
    match Lookup(d, k)
    case Some(v) => Ok(v)
    case None => Err("'" + k + "'")
  }

  /** `build_prompt(prefix, input)`: KeyErrors for a missing `type` or `main`. */
  function BuildPrompt(templates: Templates, prefix: string, input: Dict): Result<string, string> {
    var contentType :- Field(input, "type");
    var query :- Field(input, "main");
    var template :- TemplateFor(templates, contentType);
    Ok(Text.Replace(template, MainPlaceholder, QueryContent(prefix, query)))
  }

  /** For a string type, the prompt is the Q1 template exactly when "Q1" occurs in it and
      the Q2 template otherwise, with `{{main_content}}` replaced by exactly the prefix, a
      blank line, `QUERY: ` and the query. */
  lemma BuildPromptSpec(templates: Templates, prefix: string, input: Dict, contentType: string, query: Value)
    requires Lookup(input, "type") == Some(Str(contentType)) && Lookup(input, "main") == Some(query)
    ensures var content := prefix + "\n\nQUERY: " + Render(query);
            (Text.Contains(contentType, "Q1") ==>
               BuildPrompt(templates, prefix, input) == Ok(Text.Replace(templates.q1, MainPlaceholder, content))) &&
            (!Text.Contains(contentType, "Q1") ==>
               BuildPrompt(templates, prefix, input) == Ok(Text.Replace(templates.q2, MainPlaceholder, content)))
  {
  }

  /** A missing field raises before the template is chosen, `type` before `main`. */
  lemma BuildPromptMissing(templates: Templates, prefix: string, input: Dict)
    ensures Lookup(input, "type").None? ==> BuildPrompt(templates, prefix, input) == Err("'type'")
    ensures Lookup(input, "type").Some? && Lookup(input, "main").None? ==>
              BuildPrompt(templates, prefix, input) == Err("'main'")
  {
    assert "'" + "type" + "'" == "'type'";
    assert "'" + "main" + "'" == "'main'";
  }

  /** The prefix: the paper's single intro-only document, stripped. */
  function Prefix(paper: Paper): string {
    Text.Strip(Documents(paper, true, false, false, false, false)[0])
  }

  /** With only the intro switched on, the document is the intro itself. */
  lemma PrefixIsIntro(paper: Paper)
    ensures Prefix(paper) == Text.Strip(IntroMd(paper))
  {
    assert IntroMd(paper) + "" + "" == IntroMd(paper);
  }

  /** `{"prompt": prompt, **triplet}`. */
  function PromptRecord(prompt: string, triplet: Dict): Dict {
    Spread([("prompt", Str(prompt))], triplet)
  }

  /** The record of one triplet, as the one-element piece it adds. */
  function TripletPromptOf(templates: Templates, prefix: string): Dict -> Result<seq<Dict>, string> {
    (triplet: Dict) => var prompt :- BuildPrompt(templates, prefix, triplet); Ok([PromptRecord(prompt, triplet)])
  }

  /** `build_prompts` up to the file it writes. */
  function Prompts(templates: Templates, paper: Paper, triplets: seq<Dict>): Result<seq<Dict>, string> {
    ConcatMap(triplets, TripletPromptOf(templates, Prefix(paper)))
  }

  /** A record holds every field of its triplet with the triplet's value (so a triplet's own
      `prompt` wins), and the built prompt under `prompt` otherwise. */
  lemma PromptRecordSpec(prompt: string, triplet: Dict)
    ensures forall k :: HasKey(triplet, k) ==> Lookup(PromptRecord(prompt, triplet), k) == Lookup(triplet, k)
    ensures !HasKey(triplet, "prompt") ==> Lookup(PromptRecord(prompt, triplet), "prompt") == Some(Str(prompt))
    ensures forall k :: HasKey(PromptRecord(prompt, triplet), k) <==> k == "prompt" || HasKey(triplet, k)
  {
    SpreadAll([("prompt", Str(prompt))], triplet);
    forall k ensures HasKey([("prompt", Str(prompt))], k) <==> k == "prompt" {
      HasKeyIsLookup([("prompt", Str(prompt))], k);
    }
  }

  /** The prompts are one record per triplet, in order, each built from that triplet; the
      whole build raises exactly when some triplet's prompt does. */
  lemma PromptsSpec(templates: Templates, paper: Paper, triplets: seq<Dict>)
    ensures Prompts(templates, paper, triplets).Ok? <==>
            forall i :: 0 <= i < |triplets| ==> BuildPrompt(templates, Prefix(paper), triplets[i]).Ok?
    ensures Prompts(templates, paper, triplets).Ok? ==>
              |Prompts(templates, paper, triplets).value| == |triplets| &&
              forall i :: 0 <= i < |triplets| ==>
                Prompts(templates, paper, triplets).value[i] ==
                PromptRecord(BuildPrompt(templates, Prefix(paper), triplets[i]).value, triplets[i])
  {
    var f := TripletPromptOf(templates, Prefix(paper));
    ConcatMapOk(triplets, f);
    if Prompts(templates, paper, triplets).Ok? {
      ConcatMapSingles(triplets, f);
    }
  }

  /** `build_prompts` with the paper and the triplets given: the prefix is built once, then
      one record is appended per triplet. */
  method BuildPrompts(templates: Templates, paper: Paper, triplets: seq<Dict>) returns (r: Result<seq<Dict>, string>)
    ensures r == Prompts(templates, paper, triplets)
  {
    var documents := GenerateDocument(paper, true, false, false, false, false);
    DocumentCount(paper, true, false, false, false, false);
    var prefix := Text.Strip(documents[0]);
    var prompts: seq<Dict> := [];
    for n := 0 to |triplets|
      invariant ConcatMap(triplets[..n], TripletPromptOf(templates, prefix)).Ok?
      invariant prompts == ConcatMap(triplets[..n], TripletPromptOf(templates, prefix)).value
    {
      var prompt := BuildPrompt(templates, prefix, triplets[n]);
      var next := if prompt.Ok? then Ok(prompts + [Spread([("prompt", Str(prompt.value))], triplets[n])]) else Err(prompt.error);
      ConcatMapLoop(triplets, TripletPromptOf(templates, prefix), n, [], prompts, next);
      if next.Err? {
        return next;
      }
      prompts := next.value;
    }
    assert triplets[..|triplets|] == triplets;
    return Ok(prompts);
  }

  // ---------------------------------------------------------------------------------------
  // Aggregation
  // ---------------------------------------------------------------------------------------

  /** A result row: the dict of seven keys `type`, `subsection`, `main`, `context`,
      `outcome`, `predicted_context` and `predicted_outcome`, in that order. */
  datatype ResultRow = ResultRow(contentType: Value, subsection: Value, main: Value, context: Value, outcome: Value,
                                 predictedContext: Value, predictedOutcome: Value)

  /** The first object of the parsed reply of a line. */
  function ParsedObject(parse: Value -> Result<Value, string>, row: Value): Result<Value, string> {
    var response :- Item(row, "response");
    var parsed :- parse(response);
    First(parsed)
  }

  /** `dict(type=..., ..., predicted_outcome=...)`: five fields of the line, then two of
      the parsed object, each read with `[]` in that order. */
  function RowOf(row: Value, parsedJson: Value): Result<ResultRow, string> {
    var contentType :- Item(row, "type");
    var subsection :- Item(row, "subsection");
    var main :- Item(row, "main");
    var context :- Item(row, "context");
    var outcome :- Item(row, "outcome");
    var predictedContext :- Item(parsedJson, "context");
    var predictedOutcome :- Item(parsedJson, "outcome");
    Ok(ResultRow(contentType, subsection, main, context, outcome, predictedContext, predictedOutcome))
  }

  /** The result row of one response line. */
  function PredictionRow(parse: Value -> Result<Value, string>, row: Value): Result<ResultRow, string> {
    var parsedJson :- ParsedObject(parse, row);
    RowOf(row, parsedJson)
  }

  function PredictionRowOf(parse: Value -> Result<Value, string>): Value -> Result<seq<ResultRow>, string> {
    (row: Value) => var r :- PredictionRow(parse, row); Ok([r])
  }

  /** `aggregate_results` up to the files it writes. */
  function Results(parse: Value -> Result<Value, string>, rows: seq<Value>): Result<seq<ResultRow>, string> {
    ConcatMap(rows, PredictionRowOf(parse))
  }

  /** A result row copies `type`, `subsection`, `main`, `context` and `outcome` from its
      line and takes `predicted_context` and `predicted_outcome` from the parsed object's
      `context` and `outcome`. */
  lemma RowOfSpec(row: Value, parsedJson: Value)
    requires RowOf(row, parsedJson).Ok?
    ensures var r := RowOf(row, parsedJson).value;
            Ok(r.contentType) == Item(row, "type") && Ok(r.subsection) == Item(row, "subsection") &&
            Ok(r.main) == Item(row, "main") && Ok(r.context) == Item(row, "context") &&
            Ok(r.outcome) == Item(row, "outcome") &&
            Ok(r.predictedContext) == Item(parsedJson, "context") && Ok(r.predictedOutcome) == Item(parsedJson, "outcome")
  {
    var a, b, c := Item(row, "type"), Item(row, "subsection"), Item(row, "main");
    var d, e := Item(row, "context"), Item(row, "outcome");
    var f, g := Item(parsedJson, "context"), Item(parsedJson, "outcome");
    assert a.Ok? && b.Ok? && c.Ok? && d.Ok? && e.Ok? && f.Ok? && g.Ok?;
    assert RowOf(row, parsedJson) == Ok(ResultRow(a.value, b.value, c.value, d.value, e.value, f.value, g.value));
  }

  /** One result row per response line, in line order; the aggregation raises exactly when
      some line's row does. */
  lemma ResultsSpec(parse: Value -> Result<Value, string>, rows: seq<Value>)
    ensures Results(parse, rows).Ok? <==> forall i :: 0 <= i < |rows| ==> PredictionRow(parse, rows[i]).Ok?
    ensures Results(parse, rows).Ok? ==>
              |Results(parse, rows).value| == |rows| &&
              forall i :: 0 <= i < |rows| ==> Ok(Results(parse, rows).value[i]) == PredictionRow(parse, rows[i])
  {
    var f := PredictionRowOf(parse);
    ConcatMapOk(rows, f);
    if Results(parse, rows).Ok? {
      ConcatMapSingles(rows, f);
    }
  }

  /** `aggregate_results`, with the decoded response lines and the parser given: the rows,
      in the order they are written. */
  method AggregateResults(parse: Value -> Result<Value, string>, rows: seq<Value>) returns (r: Result<seq<ResultRow>, string>)
    ensures r == Results(parse, rows)
  {
    var results: seq<ResultRow> := [];
    for n := 0 to |rows|
      invariant ConcatMap(rows[..n], PredictionRowOf(parse)).Ok?
      invariant results == ConcatMap(rows[..n], PredictionRowOf(parse)).value
    {
      var newRow := PredictionRow(parse, rows[n]);
      var next := if newRow.Ok? then Ok(results + [newRow.value]) else Err(newRow.error);
      ConcatMapLoop(rows, PredictionRowOf(parse), n, [], results, next);
      if next.Err? {
        return next;
      }
      results := next.value;
    }
    assert rows[..|rows|] == rows;
    return Ok(results);
  }
}
