# Paper-extraction batch scripts, modelled in Dafny

The repository drives LLM batch jobs over scientific papers. It has four kinds of code:

- scripts that turn papers into prompts;
- a thread-pooled runner that sends each prompt to an OpenAI-compatible server or to Gemini and writes one record per request;
- scripts that flatten the parsed replies into CSV rows;
- a small PDF page splitter.

This project models the deterministic code around the network calls and proves what that code promises:

- one record per request whatever the completion order;
- records written back in request order;
- success and failure counts that add up;
- Markdown documents framed by the intro and the discussion;
- header matching and a lossless split for `extract_subsections`;
- the `(Ref:` filter and the stable sorts of the aggregations;
- placeholder substitution and template choice;
- page validation, ordering and the default output name of the splitter;
- lenient, order-keeping JSONL reading.

Modules follow the source files:

| module | source file |
|---|---|
| `Common` | `src/utils/common.py` |
| `Batch` | the read, collect, sort and stats part that `src/utils/inference.py` and `src/utils/inference_gemini.py` share |
| `Inference` | `src/utils/inference.py` |
| `InferenceGemini` | `src/utils/inference_gemini.py` |
| `DocumentBuilder` | `src/utils/document_builder.py` |
| `BenchmarkMarkdown`, `BenchmarkAggregate` | `src/benchmark/extract.py` |
| `BenchmarkExtractP2` | `src/benchmark/extract_p2.py` |
| `ExperimentsExtract` | `src/experiments/extract.py` |
| `GeminiExtract` | `src/gemini-experiments/extract.py` |
| `Extractions` | the flattening both extraction scripts share |
| `Predict` | `src/prediction/predict.py` |
| `SplitPdf` | `src/utils/split_pdf.py` |

The helper modules give Python's semantics for what the scripts use:

- `Json`: values, and dicts as insertion-ordered maps with `**` spreading, `pop`, `get`, `[]`, `in` and the exceptions they raise.
- `Text`: `strip`, `replace`, `join`, `str(int)`, and ASCII case-insensitive matching.
- `Paths`: `os.path.splitext`, and pathlib `stem`/`suffix`.
- `Sorting`: a stable `sorted` with a key.
- `Seqs`: filters, and the "append each piece, stop at the first exception" loop.

Everything the scripts cannot see is a parameter:

- the HTTP exchange: an abstract reply, with an exception as one more outcome;
- the completion order of the thread pool: any permutation of the request indices;
- the clock: elapsed seconds;
- `json.loads`, `parse_json`, `parse_json_from_text`, `read_json` and `read_tsv`: function parameters or given values;
- the PDF reader and writer: a page count or an open failure, and whether the write succeeds;
- the folder listings: given in listing order.

Code that changes state is written as methods with loops and is proved against the functions that specify it:

- the page writer of `split_pdf.py` is a class whose `AddPage` method mutates it;
- the `config.pop` calls change a dict in place.

## Model

| member | source | states |
|---|---|---|
| Common.ReadJsonl | src/utils/common.py:3-12 | the loop returns exactly the values of the stripped lines that decode, in line order, skipping the others |
| Common.DecodedAppend | src/utils/common.py:6-9 | reading two stretches of lines gives the values of the first stretch followed by those of the second (input order is kept) |
| Common.DecodedLength | src/utils/common.py:4-12 | at most one value per line, and strictly fewer values than lines once some line fails to decode |
| Common.DecodedAllLines | src/utils/common.py:6-9 | when every line decodes, value i is the decoding of line i |
| Common.BlankLineSkipped | src/utils/common.py:8-11 | a blank line never decodes once stripped, so it contributes nothing wherever it stands |
| Batch.DatasetOfSpec | src/utils/inference.py:67-71 | the run gets past reading exactly when every non-blank line is JSON; then item i is the decoding of the i-th non-blank line, and otherwise the run stops at a non-blank line that is not JSON, every non-blank line before it being JSON |
| Batch.DatasetLength | src/utils/inference.py:67-71 | a dataset that loads has one item per non-blank line |
| Batch.DatasetOfStops | src/utils/inference.py:67-71 | once a line fails to load, the lines after it are not read |
| Batch.LoadDataset | src/utils/inference.py:67-71 | the reading loop computes exactly the dataset or the first failing line |
| Batch.PoolError | src/utils/inference.py:80 | `ThreadPoolExecutor(max_workers=n)` accepts `None` and a positive number (a `bool` counting as 0 or 1); it raises ValueError for any other number and TypeError for a string, list or dict |
| Batch.FirstNonObject | src/utils/inference.py:13 | a request found is in the completion order and its item is not an object (so `data.get` raises in its future); when none is found, every item is an object |
| Batch.CompletionOrderMembers | src/utils/inference.py:82-96 | a completion order names each of the N requests exactly once |
| Batch.Failures | src/utils/inference.py:92-94 | the errors dict has one entry per failed request, keyed in completion order, with that request's message |
| Batch.ResultsMap | src/utils/inference.py:92 | after all futures complete, the results map has exactly the keys 0..N-1, and key i holds record i |
| Batch.Collect | src/utils/inference.py:89-96 | whatever the completion order, the loop fills results with every request under its own index and errors with the failures, in completion order |
| Batch.SortedResultsInRequestOrder | src/utils/inference.py:102-107 | for every completion order, the output lines are the records in strictly ascending request index |
| Batch.Throughput | src/utils/inference.py:111 | throughput is 0 when no time has elapsed, and successful/elapsed otherwise |
| Batch.Finish | src/utils/inference.py:102-120 | the records come out in request order and the statistics are those of the run |
| Batch.CountsAddUp | src/utils/inference.py:109-116 | successful counts each request whose record holds a response exactly once, whatever the completion order; failed = total - successful |
| Batch.FailedIdsAreTheFailures | src/utils/inference.py:117 | the failed ids are the failed requests, each once, in completion order (not sorted) |
| Batch.FailedIdsBound | src/utils/inference.py:116-117 | when a failed request never leaves a response, there are no more failed ids than failed requests, and strictly fewer once a request that did not raise has no response |
| Batch.Records | src/utils/inference.py:102-107 | one record per outcome, in request order |
| Batch.SuccessfulCounted | src/utils/inference.py:109 | successful counts the written records that hold a response, and failed counts the others |
| Batch.StatsSpec | src/utils/inference.py:109-120 | the statistics together: total, successful, failed, failed ids without repeats, and the failed-ids bound |
| Batch.Objects | src/utils/inference.py:82-85 | the dicts of an all-object dataset, one per item, in order |
| Inference.PayloadSpec | src/utils/inference.py:15-21 | the payload holds the prompt as its single user message, sets `stream` to false, and passes every other configuration key through |
| Inference.AnswerCases | src/utils/inference.py:28-40 | a well-formed body yields the first choice's content and its `reasoning_content` (null when absent); a missing `choices`, an empty choice list, or a missing message or content raises Python's KeyError or IndexError |
| Inference.SuccessBase | src/utils/inference.py:37-42 | the answered record starts with the request id, the reasoning and the response |
| Inference.FailureBase | src/utils/inference.py:45-50 | the failure record starts with the request id, the prompt and a null response |
| Inference.RecordSuccess | src/utils/inference.py:37-42 | an answered request reports no error, and every input field appears with its input value because `**data` is spread last |
| Inference.RecordFailure | src/utils/inference.py:43-50 | any exception gives its text as the error and a record with a null response (unless the input has one) and no `error` key of its own; `send_request` never raises |
| Inference.RecordLayout | src/utils/inference.py:37-50 | when the input shares no key with the record, the record is its own keys in order, followed by the input's fields in order |
| Inference.Outcomes | src/utils/inference.py:82-85 | one outcome per request, outcome i being `send_request` of item i |
| Inference.OutcomeRecords | src/utils/inference.py:82-85 | record i is what `send_request` made of input item i: request id i, with the input echoed |
| Inference.Connection | src/utils/inference.py:59-62 | `hostname` and `port` are required (KeyError otherwise), `concurrent_requests` defaults to 10, and the rest is the payload configuration |
| Inference.ConnectionRest | src/utils/inference.py:59-65 | the payload configuration is the configuration without the three connection keys, every other key keeping its value |
| Inference.PopConnection | src/utils/inference.py:59-62 | the three in-place pops leave the configuration that `Connection` describes |
| Inference.SendAll | src/utils/inference.py:67-120 | reading, collecting and finishing compute exactly the run's specification, for any completion order |
| Inference.RunInference | src/utils/inference.py:54-123 | the in-place pops followed by the sends compute exactly `run_inference`'s result |
| Inference.RunSucceeds | src/utils/inference.py:54-96 | a run gets through exactly when the configuration has a host and a port, every non-blank line is JSON, the pool size is accepted by `ThreadPoolExecutor`, and every item is an object |
| Inference.RunConfigErrors | src/utils/inference.py:59-60 | a missing host raises KeyError('hostname') and a missing port raises KeyError('port'), whatever the input |
| Inference.RunShape | src/utils/inference.py:59-123 | a successful run posts to `http://host:port/v1/chat/completions` with the configured pool size (default 10), which the pool accepted, and its statistics go to the input path without its extension plus `_stats.json` |
| Inference.RunPoolError | src/utils/inference.py:62-80 | with a host, a port and a readable input, a refused pool size ends the run with its ValueError or TypeError before any request |
| Inference.FailuresSilent | src/utils/inference.py:45-50 | a request that raised, over an item without its own `response`, leaves no response in its record |
| Inference.RunIs | src/utils/inference.py:54-120 | a successful run is the records and statistics of the outcomes of the requests over the input items |
| Inference.RunCountsOf | src/utils/inference.py:109-117 | in a run's output, successful counts the records that hold a response, failed counts the rest, and the failed ids do not repeat |
| Inference.RunCounts | src/utils/inference.py:109-117 | the same counts, stated for a successful run |
| Inference.RunFailedIdsBound | src/utils/inference.py:109-117 | when no input line holds its own `response`, there are at most as many failed ids as failed requests |
| Paths.StatsPathSpec | src/utils/inference.py:122-123 | the stats path is a prefix of the input path plus `_stats.json`, and the part of the input it leaves out is an extension |
| InferenceGemini.Payload | src/utils/inference_gemini.py:22-32 | the body is one content whose single part holds the prompt, with the remaining configuration as `generationConfig` |
| InferenceGemini.HttpErrorReported | src/utils/inference_gemini.py:42-48 | a status other than 200 fails with `HTTP <status>: ` followed by `error.message`, or by the raw text when the body is not JSON |
| InferenceGemini.NoCandidates | src/utils/inference_gemini.py:54-59 | a status-200 body with missing or empty `candidates` fails with the "No candidates returned" message and the prompt feedback as `Json.Render` shows it |
| InferenceGemini.CandidateAnswered | src/utils/inference_gemini.py:61-66 | when the first candidate has content parts, the response is `parts[0].text`, whatever parts follow it, and the finish reason is recorded, whatever that reason is |
| InferenceGemini.CandidateWithoutContent | src/utils/inference_gemini.py:65-70 | without content, a finish reason other than "STOP" fails with "Generation stopped due to: <reason>", and "STOP" succeeds with no text and no error |
| InferenceGemini.SuccessBase | src/utils/inference_gemini.py:75-83 | the answered record starts with the id, a null reasoning, the text and the finish reason |
| InferenceGemini.FailureBase | src/utils/inference_gemini.py:87-93 | the failure record starts with the id, the prompt, a null response and the error text |
| InferenceGemini.RecordSuccess | src/utils/inference_gemini.py:77-83 | an answered request reports no error, echoes every input field, and otherwise holds a null reasoning, the text and the finish reason |
| InferenceGemini.RecordFailure | src/utils/inference_gemini.py:85-93 | a request that raised reports its text, and also keeps it in the record's `error` field unless the input has its own |
| InferenceGemini.Outcomes | src/utils/inference_gemini.py:127-130 | one outcome per request, outcome i being `send_request` of item i |
| InferenceGemini.OutcomeRecords | src/utils/inference_gemini.py:127-130 | record i is what `send_request` made of input item i |
| InferenceGemini.Connection | src/utils/inference_gemini.py:103-105 | `api_key` is required (KeyError otherwise), `model_name` defaults to gemini-2.0-flash and `concurrent_requests` to 10, and the rest is the generation configuration |
| InferenceGemini.ConnectionRest | src/utils/inference_gemini.py:103-111 | the generation configuration is the configuration without those three keys, every other key keeping its value |
| InferenceGemini.PopConnection | src/utils/inference_gemini.py:103-105 | the in-place pops leave the configuration that `Connection` describes |
| InferenceGemini.SendAll | src/utils/inference_gemini.py:113-166 | reading, collecting and finishing compute exactly the run's specification, for any completion order |
| InferenceGemini.RunInference | src/utils/inference_gemini.py:97-172 | the in-place pops followed by the sends compute exactly `run_inference`'s result |
| InferenceGemini.RunSucceeds | src/utils/inference_gemini.py:97-141 | a run gets through exactly when there is an API key, every non-blank line is JSON, the pool size is accepted by `ThreadPoolExecutor`, and every item is an object |
| InferenceGemini.RunShape | src/utils/inference_gemini.py:103-108 | a successful run posts to the configured model's endpoint (default gemini-2.0-flash), which the statistics name, with the configured pool size (default 10), which the pool accepted |
| InferenceGemini.RunPoolError | src/utils/inference_gemini.py:105-125 | with an API key and a readable input, a refused pool size ends the run with its ValueError or TypeError before any request |
| InferenceGemini.RunIs | src/utils/inference_gemini.py:97-166 | a successful run is the records and statistics of the outcomes over the input items |
| InferenceGemini.FailuresMarked | src/utils/inference_gemini.py:85-93 | over items without their own `response` or `error`, a request that raised leaves a null response and an `error` in its record |
| InferenceGemini.RunCounts | src/utils/inference_gemini.py:154-163 | successful counts the records that hold a response, failed counts the rest, and the failed ids do not repeat |
| InferenceGemini.RunFailedIdsBound | src/utils/inference_gemini.py:154-163 | failed ids are at most the failed requests, and strictly fewer once a record has neither a response nor an error (a STOP reply without content) |
| DocumentBuilder.IntroMdSpec | src/utils/document_builder.py:5-22 | the intro starts with `# <article_title or Untitled>` and holds the Abstract and Introduction sections when their keys exist; a missing key leaves out its section and nothing else (the intro is then the title line followed by the other section, if any), so without both it is the title line alone |
| DocumentBuilder.DiscussionMdSpec | src/utils/document_builder.py:33-36 | the discussion block is empty exactly when there is no discussion, and is otherwise the heading, the text and a newline |
| DocumentBuilder.BuildSubsectionMd | src/utils/document_builder.py:24-31 | the appending loop builds exactly the subsection block |
| DocumentBuilder.SubsectionMdSpec | src/utils/document_builder.py:24-31 | the block starts with `### Subsection: <title or Untitled Section>`; with figures it quotes each figure on a line of its own, and without them it is the header and the content only |
| DocumentBuilder.FiguresMdHas | src/utils/document_builder.py:28-30 | every figure's `> fig` line is in the figure block, in the figures' order |
| DocumentBuilder.ChunkDocuments | src/utils/document_builder.py:54-60 | chunk mode yields one document per subsection |
| DocumentBuilder.ChunkDocumentShape | src/utils/document_builder.py:54-60 | chunk document i is intro + subsection i + discussion, and starts with that subsection's header right after the intro |
| DocumentBuilder.BuildChunkDocuments | src/utils/document_builder.py:56-60 | the loop appends exactly the chunk documents |
| DocumentBuilder.ChunkFrame | src/utils/document_builder.py:56-60 | every chunk document starts with the intro and ends with the discussion |
| DocumentBuilder.AppendSubsections | src/utils/document_builder.py:68-69 | the loop appends every subsection block, in order |
| DocumentBuilder.BuildSingleDocument | src/utils/document_builder.py:61-72 | the appending steps build exactly the single document |
| DocumentBuilder.GenerateDocument | src/utils/document_builder.py:38-74 | the method computes exactly the documents the flags select |
| DocumentBuilder.DocumentCount | src/utils/document_builder.py:54-72 | one document per subsection when results are included, chunked and non-empty; otherwise exactly one |
| DocumentBuilder.DocumentsFrame | src/utils/document_builder.py:49-72 | every document starts with the intro (empty without `include_intro`) and ends with the discussion text |
| DocumentBuilder.ResultsHeader | src/utils/document_builder.py:62-67 | `## Results` follows the intro exactly when results are included and not chunked; in chunk mode without subsections the document is the intro and the discussion alone |
| BenchmarkMarkdown.BeforeDiscussion | src/benchmark/extract.py:37-38 | the result is a prefix of the text with no discussion header before its end, and a header starts right at its end when it is shorter than the text |
| BenchmarkMarkdown.RemoveIgnoreCaseSpec | src/benchmark/extract.py:39 | deleting `## article` matches never lengthens the text; it shortens it exactly when there is a match, and leaves it unchanged otherwise |
| BenchmarkMarkdown.MatchPositionsLeftmost | src/benchmark/extract.py:39 | the left-to-right scan's match positions are leftmost matches: each is a case-insensitive match, they are in order at least the pattern's length apart, and every match lies inside one of them |
| BenchmarkMarkdown.KeptLength | src/benchmark/extract.py:39 | cutting spans of length `n` out of the text shortens it by `n` per span |
| BenchmarkMarkdown.RemoveIgnoreCaseDeletesMatches | src/benchmark/extract.py:39 | for any leftmost non-overlapping matches `ps`, `re.sub` is the concatenation of the gaps between them, shorter than `s` by the length of `pat` once per match |
| BenchmarkMarkdown.CutPaperSpec | src/benchmark/extract.py:35-40 | `cut_paper` is the text before the discussion with its leftmost `## article` matches (any case) cut out and the gaps between them kept, shorter by 10 characters per match; such matches always exist, and with none it is the text before the discussion itself |
| BenchmarkMarkdown.FindNewline | src/benchmark/extract.py:51 | the newline found is the first one at or after the start |
| BenchmarkMarkdown.HeaderAtSpec | src/benchmark/extract.py:51 | `HeaderAt` finds exactly the header matches, and at most one starts at a position |
| BenchmarkMarkdown.NextHeader | src/benchmark/extract.py:51-52 | a span found starts at or after the start position and is a header match there |
| BenchmarkMarkdown.NextHeaderLeftmost | src/benchmark/extract.py:51-52 | no match starts between the start and the span found, and none starts at all when nothing is found |
| BenchmarkMarkdown.Headers | src/benchmark/extract.py:51-52 | the spans are ordered, do not overlap, and lie within the text |
| BenchmarkMarkdown.HeadersSpec | src/benchmark/extract.py:51-52 | every listed span is a header match, and no match starts before, between or after them: the leftmost non-overlapping matches |
| BenchmarkMarkdown.HeadersLeftmost | src/benchmark/extract.py:51-52 | no header match starts before the first span, between two spans, or after the last one |
| BenchmarkMarkdown.PiecesLength | src/benchmark/extract.py:52 | the split has 2k+1 pieces for k headers |
| BenchmarkMarkdown.SplitRoundTrip | src/benchmark/extract.py:52 | joining the pieces of the split gives the text back |
| BenchmarkMarkdown.PartsCount | src/benchmark/extract.py:52-55 | there are exactly as many subsections as header matches, and the text before the first header is dropped |
| BenchmarkMarkdown.PartsSection | src/benchmark/extract.py:55-61 | subsection k is made of the header piece and the content piece after header k |
| BenchmarkMarkdown.ExtractSubsections | src/benchmark/extract.py:43-63 | the loop returns exactly one (stripped title, stripped content) pair per header, in order |
| BenchmarkMarkdown.SubtitleShape | src/benchmark/extract.py:51-59 | a subsection title is its header line stripped: it starts with `##`, holds no newline, and is not a Figure header |
| BenchmarkMarkdown.AppendSectionPrompts | src/benchmark/extract.py:116-127 | the inner loop appends one record per subsection after the first |
| BenchmarkMarkdown.BuildPromptsFromMarkdown | src/benchmark/extract.py:104-134 | the loops compute exactly the prompts of the files, or the first IndexError |
| BenchmarkMarkdown.MarkdownPromptsFail | src/benchmark/extract.py:113 | the run fails exactly when some file has no header left after cutting, and then with the IndexError |
| BenchmarkMarkdown.MarkdownPromptsAppend | src/benchmark/extract.py:109-127 | the prompts of several files are those of each file in turn |
| BenchmarkMarkdown.PromptRecordSpec | src/benchmark/extract.py:117-127 | a record carries the subsection text and its file, and its body is `--- INTRODUCTION ---`, the intro, `--- RESULTS ---` and the subsection, put in place of the placeholder |
| BenchmarkMarkdown.FilePromptShape | src/benchmark/extract.py:110-127 | a file with n subsections gives n-1 prompts; prompt k is about subsection k+1, with subsection 0 as the introduction |
| BenchmarkAggregate.ParseFormat | src/benchmark/extract.py:137-144 | "json" and "markdown" are accepted, and any other format raises the ValueError that names it |
| BenchmarkAggregate.TripletRowsKeep | src/benchmark/extract.py:153-180 | an object triplet's row is kept exactly when its `connecting_principle` contains `(Ref:`; a triplet without that key raises KeyError, and a non-object raises TypeError |
| BenchmarkAggregate.TripletRowsKept | src/benchmark/extract.py:172-180 | every row a triplet adds cites a reference and has a title and a subsection |
| BenchmarkAggregate.SectionRowsKept | src/benchmark/extract.py:169-180 | every row a section adds is kept |
| BenchmarkAggregate.ParsedRowsKept | src/benchmark/extract.py:168-180 | every row a parsed element adds is kept |
| BenchmarkAggregate.ResponseRowsKept | src/benchmark/extract.py:162-180 | every row a response line adds is kept |
| BenchmarkAggregate.CollectedKept | src/benchmark/extract.py:161-180 | every row collected before sorting cites a reference and has a title |
| BenchmarkAggregate.JsonResultsSpec | src/benchmark/extract.py:161-182 | the JSON aggregation raises exactly when some line raises (the first such exception); otherwise its result is a permutation of the collected rows, sorted by title, stable among equal titles |
| BenchmarkAggregate.AppendTriplet | src/benchmark/extract.py:173-180 | the innermost body appends the triplet's row exactly when it is kept |
| BenchmarkAggregate.AppendTripletRows | src/benchmark/extract.py:172-180 | the triplet loop appends exactly the section's kept rows |
| BenchmarkAggregate.AppendSection | src/benchmark/extract.py:169-180 | one section's body appends exactly that section's rows |
| BenchmarkAggregate.AppendSectionRows | src/benchmark/extract.py:169-180 | the section loop appends every section's rows, in order |
| BenchmarkAggregate.AppendParsed | src/benchmark/extract.py:168-180 | one parsed element's body appends exactly that element's rows |
| BenchmarkAggregate.AppendParsedRows | src/benchmark/extract.py:168-180 | the element loop appends every element's rows, in order |
| BenchmarkAggregate.AppendResponse | src/benchmark/extract.py:162-180 | one response line's body appends exactly that line's rows, or raises what the line raises |
| BenchmarkAggregate.AggregateResultsJson | src/benchmark/extract.py:151-192 | the loops and the sort compute exactly the JSON aggregation |
| BenchmarkAggregate.ResultRowSpec | src/benchmark/extract.py:214-219 | the row of an object has the object's own fields, over `from` set to the stem of the file |
| BenchmarkAggregate.UnparsedResponse | src/benchmark/extract.py:207-211 | a response the parser cannot read gives no rows, and `from` is then not read |
| BenchmarkAggregate.MarkdownResponseRowsCount | src/benchmark/extract.py:206-219 | a response that does not raise gives one row per parsed object, in order; it raises exactly when some object's row raises |
| BenchmarkAggregate.ResponseRowsHaveFrom | src/benchmark/extract.py:213-219 | every row of a response has a `from` |
| BenchmarkAggregate.MarkdownRowsHaveFrom | src/benchmark/extract.py:205-219 | every collected row has a `from` |
| BenchmarkAggregate.MarkdownResultsSpec | src/benchmark/extract.py:205-221 | the Markdown aggregation raises exactly when some line raises; otherwise it returns the collected rows sorted by `from`, stable among equal stems |
| BenchmarkAggregate.AppendResult | src/benchmark/extract.py:213-219 | one object's body appends its row |
| BenchmarkAggregate.AppendResultRows | src/benchmark/extract.py:213-219 | the object loop appends one row per parsed object |
| BenchmarkAggregate.AppendMarkdownResponse | src/benchmark/extract.py:206-219 | one response line's body appends that line's rows, with an unparsed response read as no objects |
| BenchmarkAggregate.AggregateResultsMarkdown | src/benchmark/extract.py:195-231 | the loop and the sort compute exactly the Markdown aggregation |
| BenchmarkAggregate.AggregateDispatch | src/benchmark/extract.py:234-241 | an unknown format raises the ValueError before any response is read, and each known format runs its own aggregation |
| Sorting.SortRowsBySpec | src/benchmark/extract.py:182 | the sorted rows are a permutation of the input, ordered by their key, with equal keys kept in input order |
| BenchmarkExtractP2.CutPaperSpec | src/benchmark/extract_p2.py:16-19 | the cut text is a prefix with no discussion header before its end, ends where the first header starts, and keeps every `## article` |
| BenchmarkExtractP2.FileOutcomeSpec | src/benchmark/extract_p2.py:31-39 | a readable file whose cut text is not blank gives the template with that text in place of `{{paper}}`; a blank one is skipped; an unreadable one is reported |
| BenchmarkExtractP2.PromptsAppend | src/benchmark/extract_p2.py:30-39 | the prompts of two runs of files are those of the first run followed by those of the second, so an error stops nothing after it |
| BenchmarkExtractP2.ErrorsAppend | src/benchmark/extract_p2.py:30-39 | the logged messages of two runs of files are those of the first followed by those of the second |
| BenchmarkExtractP2.PromptsSingle | src/benchmark/extract_p2.py:31-39 | a single file gives one prompt, one message, or nothing, according to its outcome |
| BenchmarkExtractP2.OutcomesPartition | src/benchmark/extract_p2.py:30-39 | every file is prompted, skipped as blank, or reported, exactly once |
| BenchmarkExtractP2.BuildPrompts | src/benchmark/extract_p2.py:21-47 | the loop writes exactly the records `{"prompt": p}` of the prompts, in file order, logs exactly the errors, and yields no more records than files |
| ExperimentsExtract.PaperDocumentsSingle | src/experiments/extract.py:36-43 | with these switches a paper gives exactly one document: its intro, `## Results`, and every subsection |
| ExperimentsExtract.PromptRecordFields | src/experiments/extract.py:44-50 | a record holds the template with `{{paper}}` replaced by the document, the title and the path, and nothing else |
| ExperimentsExtract.PromptsSpec | src/experiments/extract.py:31-50 | there is one record per paper, in listing order, built from that paper's document, with the title defaulting to "Untitled Article" |
| ExperimentsExtract.AppendFilePrompts | src/experiments/extract.py:34-50 | the inner loop appends one record per generated document |
| ExperimentsExtract.BuildPrompts | src/experiments/extract.py:23-57 | the loops build exactly the records of the papers, in order |
| ExperimentsExtract.ResponseCsvSpec | src/experiments/extract.py:64-83 | a line's CSV is named `<stem of from>.csv` and holds only that line's rows, one per triplet of its extractions |
| ExperimentsExtract.ResponseTable | src/experiments/extract.py:64-83 | the body computes exactly the line's CSV, or the exception the first failing read raises |
| ExperimentsExtract.AggregateResults | src/experiments/extract.py:59-83 | the loop writes one CSV per line, in order, until the first line that raises |
| Extractions.TripletRowSpec | src/experiments/extract.py:75-79 | an object triplet gives a row with the line's title and the extraction's subsection, its own keys winning on a clash; a non-object raises TypeError |
| Extractions.ExtractionRowsSpec | src/experiments/extract.py:72-80 | an extraction whose triplets are all objects gives one row per triplet, in order |
| Extractions.ExtractionsRowsAppend | src/experiments/extract.py:71-80 | the rows of the extractions are those of each extraction, concatenated in order |
| Extractions.ExtractionRowsCount | src/experiments/extract.py:72-80 | an extraction gives as many rows as it has triplets |
| Extractions.ExtractionsRowsCount | src/experiments/extract.py:71-80 | a reply's row count is the total number of triplets |
| Extractions.NewRows | src/experiments/extract.py:75-79 | the comprehension builds one row per triplet, or raises at the first non-object |
| Extractions.AppendExtraction | src/experiments/extract.py:72-80 | `results += new_rows` appends exactly that extraction's rows |
| Extractions.CollectRows | src/experiments/extract.py:71-80 | the results are reset per response and hold every extraction's rows, in order |
| Extractions.WritesSpec | src/experiments/extract.py:64-83 | the CSVs written are those of the first lines, one per line, until the first line that raises |
| Extractions.WritesRaisedPrefix | src/experiments/extract.py:64-83 | once a line has raised, the lines after it are never read |
| GeminiExtract.PdfPromptsSpec | src/gemini-experiments/extract.py:69-78 | one record per PDF, in listing order, each holding the template with `{{paper}}` replaced by the empty string, the resolved path and the path |
| GeminiExtract.BuildPromptsFromPdfs | src/gemini-experiments/extract.py:69-85 | the loop builds exactly those records |
| GeminiExtract.TitleSpec | src/gemini-experiments/extract.py:96 | the title is the line's `title` when it has one, and otherwise the parsed `paper_title` (None when absent, AttributeError when the parsed value is not an object) |
| GeminiExtract.ResponseCsvSpec | src/gemini-experiments/extract.py:92-111 | a line's CSV is named `<stem of from>.csv` and holds one row per triplet, each carrying the title the line or the reply gives |
| GeminiExtract.ResponseTable | src/gemini-experiments/extract.py:92-111 | the body computes exactly the line's CSV, or the first exception |
| GeminiExtract.AggregateResults | src/gemini-experiments/extract.py:87-111 | the loop writes one CSV per line, in order, until the first line that raises |
| Predict.BuildPromptSpec | src/prediction/predict.py:22-29 | the Q1 template is chosen exactly when "Q1" occurs in the type, and the Q2 template otherwise; `{{main_content}}` is replaced by exactly prefix, a blank line, `QUERY: ` and the query |
| Predict.BuildPromptMissing | src/prediction/predict.py:23-24 | a missing `type` raises KeyError('type') first, and then a missing `main` raises KeyError('main') |
| Predict.PrefixIsIntro | src/prediction/predict.py:51-58 | the prefix is the paper's intro, stripped |
| Predict.PromptRecordSpec | src/prediction/predict.py:62-65 | a record holds every triplet field with its value (so the triplet's own `prompt` wins), and the built prompt under `prompt` otherwise |
| Predict.PromptsSpec | src/prediction/predict.py:59-65 | there is one record per triplet, in order, built from that triplet; the build raises exactly when some triplet's prompt does |
| Predict.BuildPrompts | src/prediction/predict.py:49-72 | the loop builds exactly those records |
| Predict.RowOfSpec | src/prediction/predict.py:84-92 | a row copies type, subsection, main, context and outcome from the line, and takes predicted_context and predicted_outcome from the parsed object |
| Predict.ResultsSpec | src/prediction/predict.py:80-93 | there is one row per response line, in input order; the aggregation raises exactly when some line's row does |
| Predict.AggregateResults | src/prediction/predict.py:74-103 | the loop computes exactly those rows |
| SplitPdf.PageWriter.constructor | src/utils/split_pdf.py:24 | a new writer holds no pages |
| SplitPdf.PageWriter.AddPage | src/utils/split_pdf.py:28 | adding a page appends its index and changes nothing else |
| SplitPdf.NoInvalidPages | src/utils/split_pdf.py:18-22 | the invalid-page list is empty exactly when every page lies in 1..total |
| SplitPdf.SortedInRange | src/utils/split_pdf.py:18-28 | sorting keeps every page in 1..total |
| SplitPdf.ExtractWritten | src/utils/split_pdf.py:11-50 | a request is written exactly when every page lies in 1..total and the write succeeds; otherwise the result is False (the output file, which `open(..., 'wb')` creates before the write, is not modelled) |
| SplitPdf.ExtractContents | src/utils/split_pdf.py:24-36 | the output holds exactly the requested pages (duplicates kept), in ascending order, page p as reader index p-1, each index below the page count, under the output name |
| SplitPdf.OutputNameSpec | src/utils/split_pdf.py:31-36 | a non-empty given name is used as it is; otherwise the name is the input's stem, `_pages_`, the ascending permutation of the pages (which exists and is unique) in decimal joined by `_`, and the input's suffix |
| SplitPdf.ExtractPages | src/utils/split_pdf.py:8-50 | validation, the `add_page` loop and the write produce exactly the specified output, and True exactly when it is written |
| SplitPdf.SliceSpec | src/utils/split_pdf.py:84-88 | a slice is accepted exactly when start <= end, and then it is end-start+1 consecutive pages from start to end |
| SplitPdf.ReversedSliceFails | src/utils/split_pdf.py:75-92 | a slice whose start exceeds its end exits with status 1 |
| Text.StripSpec | src/utils/common.py:8 | `strip` removes a whitespace prefix and a whitespace suffix and keeps the rest unchanged |
| Text.StripEmptyIffBlank | src/benchmark/extract_p2.py:34 | the stripped text is empty exactly when the text is all whitespace |
| Text.ReplaceSingle | src/benchmark/extract_p2.py:36 | a template holding the placeholder once gets the replacement in its place, with the text around it kept |
| Text.NatToStringRoundTrip | src/utils/split_pdf.py:36 | reading back the digits `str(n)` writes gives n |
| Json.SpreadLookup | src/utils/inference.py:37-41 | after `{**d, **e}`, a key holds e's value when e has it, and d's value otherwise |
| Paths.StemSuffix | src/utils/split_pdf.py:33-35 | the stem and the suffix together give the file name |

## Left out

- Network and files: HTTP requests, timeouts, headers, and every file read and write are not modelled. This covers the JSONL and CSV outputs, the prompt files and the PDF output. Each script's model stops at the values it would write.
- Thread pool and progress bar: completions are modelled as an arbitrary permutation of the request indices, with no concurrency.
- Time: elapsed seconds are a parameter. Float formatting of throughput is not modelled.
- Printed messages: left out, except the `extract_p2.py` error messages, which the model returns as a log.
- Parsers and readers: `yaml` loading, `json.loads`, `parse_json`, `parse_json_from_text`, `read_json` and `read_tsv` are abstract. They are given as function parameters or as their results, because their bodies are not part of this model.
- Python `re`: modelled only for the patterns the scripts use. These are the discussion split, the `## article` removal and the subsection header split, each by an explicit matcher with ASCII case-insensitivity.
- Template constants: the text of the prompt templates is a parameter. Only the placeholders are fixed.
- PyPDF2: the reader is given as a page count or an open failure, and the write as a success flag. A write that fails after `open(output_file, 'wb')` may leave an empty or partial file; SplitPdf.ExtractWritten does not model that file. The different messages printed for `FileNotFoundError` and other exceptions are not modelled; both give False.
- Gemini attachments: `file_path` is carried in the prompt record but never encoded. The runner reads only `prompt`.
- Unmodelled call sites: `build_prompts_from_json` in `src/benchmark/extract.py` and `build_prompts` in `src/gemini-experiments/extract.py` pass `include_abstract`, which `generate_document` does not accept. The `api_key=` argument some drivers pass to `run_inference` is not modelled either.
- `extract_p2.py`: its `aggregate_results` does nothing, and its `main` enters the debugger, so neither is modelled.
- Command-line drivers: every `main` and the argparse code are left out, except the page selection and exit status of `split_pdf.py`.
- Json.Render: `str()` of a value is exact for scalars and empty containers. A non-empty list or dict is shown as `[...]` or `{...}`, so prompts that embed such a query, and error messages that embed such a value, differ from Python's text.
- InferenceGemini.NoCandidates: a non-empty `promptFeedback`, which is the blocked-prompt case this branch reports, appears in the error as `{...}` rather than as Python's `str()` of the dict (for example `{'blockReason': 'SAFETY'}`), because Json.Render does not print non-empty containers.
- Sorting.SortRowsBy: rows whose sort key is not a string are not modelled. Python would compare them, or raise TypeError for mixed types; the model sorts them under the empty key.
- Predict.ResultRow: the prediction result row is a fixed-field datatype, not a general dict. The CSV column layout follows from the field order.
- Folder listings: `glob` order is taken as given, in listing order.
- Floats: `Json.Value` has no floating-point case. A float in the YAML configuration, such as `temperature: 0.7` in the payload, cannot be represented. A float `concurrent_requests` is outside Batch.PoolError; Python accepts it when positive and raises ValueError otherwise. NaN cells that `read_tsv` yields for empty fields are not modelled.
- DocumentBuilder: papers are a datatype with string fields. Non-string `abstract`, `title` or figure values, which Python would format with `str()`, are not modelled.
