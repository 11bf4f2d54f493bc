/** src/utils/inference_gemini.py: the same batch runner against the Google Gemini
    `generateContent` endpoint. The reply has a different shape, the key goes in a header,
    and a failed request's record carries its error text.

    The endpoint is a parameter: `server(i, apiKey, payload)` is what the HTTP exchange of
    request `i` yields. */
module InferenceGemini {
  import opened Wrappers
  import opened Json
  import opened Seqs
  import opened Batch
  import Paths
  import Text

  /** What the HTTP exchange yields: the message of an exception raised by `requests.post`,
      or a reply with its status code, its body as `response.json()` decodes it (or the
      decoder's error message) and its raw text. */
  datatype GeminiReply =
    | Raised(text: string)
    | Reply(status: int, body: Result<Value, string>, text: string)

  /** The request body: one content with one part holding the prompt, and the configuration
      left after the pops as `generationConfig`. */
  function Payload(generationConfig: Dict, prompt: Value): (r: Dict)
    ensures Lookup(r, "contents") == Some(Arr([Obj([("parts", Arr([Obj([("text", prompt)])]))])]))
    ensures Lookup(r, "generationConfig") == Some(Obj(generationConfig))
    ensures forall k :: HasKey(r, k) <==> k == "contents" || k == "generationConfig"
  {
    var r: Dict := [("contents", Arr([Obj([("parts", Arr([Obj([("text", prompt)])]))])])),
                    ("generationConfig", Obj(generationConfig))];
    IndexOfIs(r, "generationConfig", 1);
    r
  }

  /** The message of a reply whose status is not 200: `error.message` of the body when the
      body is an object whose `error` is an object; the raw text when the body is not JSON,
      is not an object, or its `error` is not an object (the bare `except` catches the
      failed `.get`). */
  function ErrorMessage(body: Result<Value, string>, text: string): string {
    match body
    case Err(_) => text
    case Ok(json) =>
      match DictGet(json, "error", Obj([]))
      case Err(_) => text
      case Ok(error) =>
        match DictGet(error, "message", Str(text))
        case Err(_) => text
        case Ok(message) => Render(message)
  }

  /** Whether the candidate has generated parts: `"content" in candidate and "parts" in
      candidate["content"]`, the second test made only when the first holds. */
  function HasParts(candidate: Value): Result<bool, string> {
    var hasContent :- In("content", candidate);
    if hasContent then
      var content :- Item(candidate, "content");
      In("parts", content)
    else Ok(false)
  }

  /** The try block up to the record: the generated text (None when there is none and
      generation stopped normally) and the finish reason; or the message of the exception
      raised. */
  function Answer(reply: GeminiReply): Result<(Value, Value), string> {
    match reply
    case Raised(text) => Err(text)
    case Reply(status, body, text) =>
      if status != 200 then Err("HTTP " + Text.IntToString(status) + ": " + ErrorMessage(body, text))
      else
        var json :- body;
        var candidates :- DictGet(json, "candidates", Arr([]));
        if !Truthy(candidates) then
          var feedback :- DictGet(json, "promptFeedback", Obj([]));
          Err("No candidates returned. Feedback: " + Render(feedback))
        else
          var candidate :- First(candidates);
          var finishReason :- DictGet(candidate, "finishReason", Null);
          var hasParts :- HasParts(candidate);
          if hasParts then
            var content :- Item(candidate, "content");
            var parts :- Item(content, "parts");
            var part :- First(parts);
            var text :- Item(part, "text");
            Ok((text, finishReason))
          else if finishReason != Str("STOP") then
            Err("Generation stopped due to: " + Render(finishReason))
          else Ok((Null, finishReason))
  }

  /** A status other than 200 raises with the status and the server's message; a message
      given as `error.message` is the one reported, and a body that is not JSON gives the
      raw text instead. */
  lemma HttpErrorReported(status: int, body: Result<Value, string>, text: string)
    requires status != 200
    ensures Answer(Reply(status, body, text)) == Err("HTTP " + Text.IntToString(status) + ": " + ErrorMessage(body, text))
    ensures body.Err? ==> ErrorMessage(body, text) == text
    ensures forall e: Dict, m: string ::
              body == Ok(Obj([("error", Obj(e))])) && Lookup(e, "message") == Some(Str(m)) ==>
                ErrorMessage(body, text) == m
  {
    forall e: Dict, m: string | body == Ok(Obj([("error", Obj(e))])) && Lookup(e, "message") == Some(Str(m))
      ensures ErrorMessage(body, text) == m
    {
      var single: Dict := [("error", Obj(e))];
      FromPairsDistinct(single);
      FromPairsDistinct(e);
    }
  }

  /** A reply of status 200 whose body has no candidates (or an empty list of them) raises
      with the prompt feedback; whatever the other fields. */
  lemma NoCandidates(json: Dict, text: string)
    requires Get(json, "candidates", Arr([])) == Arr([])
    ensures Answer(Reply(200, Ok(Obj(json)), text)) ==
            Err("No candidates returned. Feedback: " + Render(Get(json, "promptFeedback", Obj([]))))
  {
    FromPairsDistinct(json);
  }

  /** A first candidate with a content whose first part has a text yields that text and
      the finish reason, whatever the finish reason is and whatever parts follow. */
  lemma CandidateAnswered(json: Dict, candidate: Dict, content: Dict, part: Dict, moreParts: seq<Value>,
                          rest: seq<Value>, text: string)
    requires Lookup(json, "candidates") == Some(Arr([Obj(candidate)] + rest))
    requires Lookup(candidate, "content") == Some(Obj(content))
    requires Lookup(content, "parts") == Some(Arr([Obj(part)] + moreParts))
    requires HasKey(part, "text")
    ensures Answer(Reply(200, Ok(Obj(json)), text)) ==
            Ok((Lookup(part, "text").value, Get(candidate, "finishReason", Null)))
  {
    FromPairsDistinct(json);
    FromPairsDistinct(candidate);
    FromPairsDistinct(content);
    FromPairsDistinct(part);
    assert HasKey(content, "parts");
    assert DictGet(Obj(json), "candidates", Arr([])) == Ok(Arr([Obj(candidate)] + rest));
    assert HasParts(Obj(candidate)) == Ok(true);
    assert Item(Obj(candidate), "content") == Ok(Obj(content));
    assert Item(Obj(content), "parts") == Ok(Arr([Obj(part)] + moreParts));
    assert Item(Obj(part), "text") == Ok(Lookup(part, "text").value);
  }

  /** A first candidate without generated parts raises with its finish reason unless that
      reason is "STOP", when the request succeeds with no text. */
  lemma CandidateWithoutContent(json: Dict, candidate: Dict, rest: seq<Value>, text: string)
    requires Lookup(json, "candidates") == Some(Arr([Obj(candidate)] + rest))
    requires !HasKey(candidate, "content")
    ensures var finishReason := Get(candidate, "finishReason", Null);
            Answer(Reply(200, Ok(Obj(json)), text)) ==
              if finishReason == Str("STOP") then Ok((Null, finishReason))
              else Err("Generation stopped due to: " + Render(finishReason))
  {
    FromPairsDistinct(json);
    FromPairsDistinct(candidate);
  }

  /** The record of a request that was answered: id, a null reasoning, the text and the
      finish reason first. */
  function SuccessBase(id: nat, text: Value, finishReason: Value): (r: Dict)
    ensures Lookup(r, "request_id") == Some(Int(id))
    ensures Lookup(r, "reasoning") == Some(Null)
    ensures Lookup(r, "response") == Some(text)
    ensures Lookup(r, "finish_reason") == Some(finishReason)
    ensures forall k :: HasKey(r, k) <==> k == "request_id" || k == "reasoning" || k == "response" || k == "finish_reason"
  {
    var r: Dict := [("request_id", Int(id)), ("reasoning", Null), ("response", text), ("finish_reason", finishReason)];
    IndexOfIs(r, "reasoning", 1);
    IndexOfIs(r, "response", 2);
    IndexOfIs(r, "finish_reason", 3);
    r
  }

  /** The record of a request that raised: id, prompt, a null response and the error text
      first. */
  function FailureBase(id: nat, prompt: Value, e: string): (r: Dict)
    ensures Lookup(r, "request_id") == Some(Int(id))
    ensures Lookup(r, "prompt") == Some(prompt)
    ensures Lookup(r, "response") == Some(Null)
    ensures Lookup(r, "error") == Some(Str(e))
    ensures forall k :: HasKey(r, k) <==> k == "request_id" || k == "prompt" || k == "response" || k == "error"
  {
    var r: Dict := [("request_id", Int(id)), ("prompt", prompt), ("response", Null), ("error", Str(e))];
    IndexOfIs(r, "prompt", 1);
    IndexOfIs(r, "response", 2);
    IndexOfIs(r, "error", 3);
    r
  }

  /** The try/except of `send_request` once the exchange is over: the record, with `**data`
      spread last, and the error text when the exchange raised. */
  function Record(data: Dict, id: nat, answer: Result<(Value, Value), string>): Outcome {
    match answer
    case Ok((text, finishReason)) => Outcome(Spread(SuccessBase(id, text, finishReason), data), None)
    case Err(e) => Outcome(Spread(FailureBase(id, Get(data, "prompt", Null), e), data), Some(e))
  }

  /** An answered request: no error is reported; the record echoes every input field and
      otherwise holds the id, a null reasoning, the text and the finish reason. */
  lemma RecordSuccess(data: Dict, id: nat, text: Value, finishReason: Value)
    ensures var o := Record(data, id, Ok((text, finishReason)));
            o.error.None? &&
            (forall k :: HasKey(data, k) ==> Lookup(o.record, k) == Lookup(data, k)) &&
            (!HasKey(data, "request_id") ==> Lookup(o.record, "request_id") == Some(Int(id))) &&
            (!HasKey(data, "reasoning") ==> Lookup(o.record, "reasoning") == Some(Null)) &&
            (!HasKey(data, "response") ==> Lookup(o.record, "response") == Some(text)) &&
            (!HasKey(data, "finish_reason") ==> Lookup(o.record, "finish_reason") == Some(finishReason)) &&
            (forall k :: HasKey(o.record, k) <==>
               k == "request_id" || k == "reasoning" || k == "response" || k == "finish_reason" || HasKey(data, k))
  {
    SpreadAll(SuccessBase(id, text, finishReason), data);
  }

  /** A request that raised: the error text is reported, and, unlike the OpenAI-compatible
      runner, also kept in the record's `error` field unless the input has its own. */
  lemma RecordFailure(data: Dict, id: nat, e: string)
    ensures var o := Record(data, id, Err(e));
            o.error == Some(e) &&
            (forall k :: HasKey(data, k) ==> Lookup(o.record, k) == Lookup(data, k)) &&
            (!HasKey(data, "request_id") ==> Lookup(o.record, "request_id") == Some(Int(id))) &&
            (!HasKey(data, "response") ==> Lookup(o.record, "response") == Some(Null)) &&
            (!HasKey(data, "error") ==> Lookup(o.record, "error") == Some(Str(e))) &&
            Lookup(o.record, "prompt") == Some(Get(data, "prompt", Null))
  {
    SpreadAll(FailureBase(id, Get(data, "prompt", Null), e), data);
  }

  /** The answer request `id` receives to the payload built from its prompt. */
  function AnswerTo(apiKey: Value, generationConfig: Dict, data: Dict, id: nat,
                    server: (nat, Value, Dict) -> GeminiReply): Result<(Value, Value), string> {
    Answer(server(id, apiKey, Payload(generationConfig, Get(data, "prompt", Null))))
  }

  /** `send_request`: the record of request `id` and, when it raised, the error text. */
  function SendRequest(apiKey: Value, generationConfig: Dict, data: Dict, id: nat,
                       server: (nat, Value, Dict) -> GeminiReply): Outcome {
    Record(data, id, AnswerTo(apiKey, generationConfig, data, id, server))
  }

  /** The outcome of each request, in request order. */
  function Outcomes(apiKey: Value, generationConfig: Dict, dataset: seq<Dict>,
                    server: (nat, Value, Dict) -> GeminiReply): (r: seq<Outcome>)
    ensures |r| == |dataset|
    ensures forall i :: 0 <= i < |r| ==> r[i] == SendRequest(apiKey, generationConfig, dataset[i], i, server)
  {
    seq(|dataset|, i requires 0 <= i < |dataset| => SendRequest(apiKey, generationConfig, dataset[i], i, server))
  }

  /** A run that got past its configuration and input; the statistics file also names the
      model. */
  datatype Run = Run(url: string, model: Value, concurrency: Value, output: seq<Dict>, stats: Stats, statsPath: string)

  /** The `generateContent` endpoint of the model. */
  function Url(modelName: Value): string {
    "https://generativelanguage.googleapis.com/v1beta/models/" + Render(modelName) + ":generateContent"
  }

  /** The connection keys popped off the configuration: `api_key` (a KeyError when
      missing), the model (gemini-2.0-flash when missing) and the pool size (10 when
      missing); what is left is the generation configuration. */
  function Connection(config: Dict): (r: Result<(Value, Value, Value, Dict), Crash>)
    ensures !HasKey(config, "api_key") ==> r == Err(KeyError("api_key"))
    ensures HasKey(config, "api_key") ==>
              r.Ok? &&
              Some(r.value.0) == Lookup(config, "api_key") &&
              r.value.1 == Get(config, "model_name", Str("gemini-2.0-flash")) &&
              r.value.2 == Get(config, "concurrent_requests", Int(10))
  {
    match Pop(config, "api_key")
    case None => Err(KeyError("api_key"))
    case Some((apiKey, afterKey)) =>
      assert "model_name" != "api_key" && "concurrent_requests" != "api_key" && "concurrent_requests" != "model_name";
      var (modelName, afterModel) := PopOr(afterKey, "model_name", Str("gemini-2.0-flash"));
      assert Lookup(afterKey, "model_name") == Lookup(config, "model_name");
      var (concurrency, generationConfig) := PopOr(afterModel, "concurrent_requests", Int(10));
      assert Lookup(afterModel, "concurrent_requests") == Lookup(config, "concurrent_requests");
      Ok((apiKey, modelName, concurrency, generationConfig))
  }

  /** The generation configuration is the configuration without the three connection keys. */
  lemma ConnectionRest(config: Dict)
    requires Connection(config).Ok?
    ensures forall k :: k != "api_key" && k != "model_name" && k != "concurrent_requests" ==>
              Lookup(Connection(config).value.3, k) == Lookup(config, k)
    ensures !HasKey(Connection(config).value.3, "api_key") && !HasKey(Connection(config).value.3, "model_name") &&
            !HasKey(Connection(config).value.3, "concurrent_requests")
  {
    var afterKey := Pop(config, "api_key").value.1;
    var afterModel := PopOr(afterKey, "model_name", Str("gemini-2.0-flash")).1;
    RemovedThree(config, afterKey, afterModel, Connection(config).value.3, "api_key", "model_name", "concurrent_requests");
  }

  /** The three `config.pop` calls, each changing the configuration in place. */
  method PopConnection(config: Dict) returns (r: Result<(Value, Value, Value, Dict), Crash>)
    ensures r == Connection(config)
  {
    var rest := config;
    var popped := Pop(rest, "api_key");
    if popped.None? {
      return Err(KeyError("api_key"));
    }
    var apiKey := popped.value.0;
    rest := popped.value.1;
    var withDefault := PopOr(rest, "model_name", Str("gemini-2.0-flash"));
    var modelName := withDefault.0;
    rest := withDefault.1;
    withDefault := PopOr(rest, "concurrent_requests", Int(10));
    var concurrency := withDefault.0;
    rest := withDefault.1;
    return Ok((apiKey, modelName, concurrency, rest));
  }

  /** What `run_inference` does once the configuration is split: the dataset is read, the
      pool of `concurrency` workers is made, every request is sent, and the records are written in request order with the statistics. */
  function Requests(apiKey: Value, generationConfig: Dict, concurrency: Value, lines: seq<string>, decode: string -> Option<Value>,
                    server: (nat, Value, Dict) -> GeminiReply, order: seq<nat>, elapsed: real): Result<(seq<Dict>, Stats), Crash>
    requires IsCompletionOrder(order, |Filter(lines, NonBlank)|)
  {
    match DatasetOf(lines, decode)
    case Err(e) => Err(e)
    case Ok(values) =>
      DatasetLength(lines, decode);
      if PoolError(concurrency).Some? then Err(PoolError(concurrency).value)
      else match FirstNonObject(values, order)
      case Some(k) => Err(AttributeError(k, TypeName(values[k])))
      case None =>
        AllObjects(values, order);
        var outcomes := Outcomes(apiKey, generationConfig, Objects(values), server);
        Ok((Records(outcomes), RunStats(outcomes, order, elapsed)))
  }

  /** `run_inference`. */
  function RunSpec(config: Dict, lines: seq<string>, decode: string -> Option<Value>,
                   server: (nat, Value, Dict) -> GeminiReply, order: seq<nat>, elapsed: real, inputPath: string): Result<Run, Crash>
    requires IsCompletionOrder(order, |Filter(lines, NonBlank)|)
  {
    var (apiKey, modelName, concurrency, generationConfig) :- Connection(config);
    var (output, stats) :- Requests(apiKey, generationConfig, concurrency, lines, decode, server, order, elapsed);
    Ok(Run(Url(modelName), modelName, concurrency, output, stats, Paths.StatsPath(inputPath)))
  }

  /** The body of `run_inference` after the configuration is split: the input is read line
      by line, and the completed futures are collected. */
  method SendAll(apiKey: Value, generationConfig: Dict, concurrency: Value, lines: seq<string>, decode: string -> Option<Value>,
                 server: (nat, Value, Dict) -> GeminiReply, order: seq<nat>, elapsed: real)
    returns (r: Result<(seq<Dict>, Stats), Crash>)
    requires IsCompletionOrder(order, |Filter(lines, NonBlank)|)
    ensures r == Requests(apiKey, generationConfig, concurrency, lines, decode, server, order, elapsed)
  {
    var loaded := LoadDataset(lines, decode);
    if loaded.Err? {
      return Err(loaded.error);
    }
    var dataset := loaded.value;
    var poolError := PoolError(concurrency);
    if poolError.Some? {
      return Err(poolError.value);
    }
    DatasetOfSpec(lines, decode);
    var bad := FirstNonObject(dataset, order);
    if bad.Some? {
      return Err(AttributeError(bad.value, TypeName(dataset[bad.value])));
    }
    CompletionOrderMembers(order, |dataset|);
    var outcomes := Outcomes(apiKey, generationConfig, Objects(dataset), server);
    var output, stats := Finish(outcomes, order, elapsed);
    return Ok((output, stats));
  }

  /** `run_inference`, step by step: the configuration is popped in place, then the requests
      are sent. */
  method RunInference(config: Dict, lines: seq<string>, decode: string -> Option<Value>,
                      server: (nat, Value, Dict) -> GeminiReply, order: seq<nat>, elapsed: real, inputPath: string)
    returns (r: Result<Run, Crash>)
    requires IsCompletionOrder(order, |Filter(lines, NonBlank)|)
    ensures r == RunSpec(config, lines, decode, server, order, elapsed, inputPath)
  {
    var connection := PopConnection(config);
    if connection.Err? {
      return Err(connection.error);
    }
    var (apiKey, modelName, concurrency, generationConfig) := connection.value;
    var url := Url(modelName);
    var sent := SendAll(apiKey, generationConfig, concurrency, lines, decode, server, order, elapsed);
    if sent.Err? {
      return Err(sent.error);
    }
    var (output, stats) := sent.value;
    return Ok(Run(url, modelName, concurrency, output, stats, Paths.StatsPath(inputPath)));
  }

  /** A run gets through exactly when the configuration has an API key, every non-blank
      input line is JSON, the pool size is accepted (absent, `None` or a positive number) and
      every input item is an object. */
  lemma RunSucceeds(config: Dict, lines: seq<string>, decode: string -> Option<Value>,
                    server: (nat, Value, Dict) -> GeminiReply, order: seq<nat>, elapsed: real, inputPath: string)
    requires IsCompletionOrder(order, |Filter(lines, NonBlank)|)
    ensures RunSpec(config, lines, decode, server, order, elapsed, inputPath).Ok? <==>
            HasKey(config, "api_key") && DatasetOf(lines, decode).Ok? &&
            PoolError(Get(config, "concurrent_requests", Int(10))).None? &&
            forall i :: 0 <= i < |DatasetOf(lines, decode).value| ==> DatasetOf(lines, decode).value[i].Obj?
  {
    DatasetOfSpec(lines, decode);
    var d := DatasetOf(lines, decode);
    if d.Ok? {
      CompletionOrderMembers(order, |d.value|);
      var bad := FirstNonObject(d.value, order);
      if bad.None? {
        forall i | 0 <= i < |d.value| ensures d.value[i].Obj? {
          assert (i as nat) in order;
        }
      }
    }
  }

  /** The records of the outcomes over the input items: one per item, and record `i` is what
      `send_request` made of input item `i`, so the request id is `i` and the input fields are
      echoed. */
  lemma OutcomeRecords(apiKey: Value, generationConfig: Dict, dataset: seq<Value>,
                       server: (nat, Value, Dict) -> GeminiReply, output: seq<Dict>)
    requires forall i :: 0 <= i < |dataset| ==> dataset[i].Obj?
    requires output == Records(Outcomes(apiKey, generationConfig, Objects(dataset), server))
    ensures |output| == |dataset|
    ensures forall i :: 0 <= i < |output| ==>
              dataset[i].Obj? && output[i] == SendRequest(apiKey, generationConfig, AsDict(dataset[i]).value, i, server).record
  {
  }

  /** A run that gets through had an API key; it posts to the endpoint of the configured
      model (gemini-2.0-flash by default), which the statistics name, with a pool of
      `concurrent_requests` workers (10 by default), and the statistics go next to the input
      file. */
  lemma RunShape(config: Dict, lines: seq<string>, decode: string -> Option<Value>,
                 server: (nat, Value, Dict) -> GeminiReply, order: seq<nat>, elapsed: real, inputPath: string, run: Run)
    requires IsCompletionOrder(order, |Filter(lines, NonBlank)|)
    requires RunSpec(config, lines, decode, server, order, elapsed, inputPath) == Ok(run)
    ensures HasKey(config, "api_key")
    ensures run.model == Get(config, "model_name", Str("gemini-2.0-flash")) && run.url == Url(run.model)
    ensures run.concurrency == Get(config, "concurrent_requests", Int(10)) && PoolError(run.concurrency).None?
    ensures run.statsPath == Paths.StatsPath(inputPath)
  {
  }

  /** With an API key and a readable input, a refused pool size ends the run with its
      ValueError or TypeError before any request is sent, whatever the items are. */
  lemma RunPoolError(config: Dict, lines: seq<string>, decode: string -> Option<Value>,
                     server: (nat, Value, Dict) -> GeminiReply, order: seq<nat>, elapsed: real, inputPath: string)
    requires IsCompletionOrder(order, |Filter(lines, NonBlank)|)
    ensures HasKey(config, "api_key") && DatasetOf(lines, decode).Ok? &&
            PoolError(Get(config, "concurrent_requests", Int(10))).Some? ==>
              RunSpec(config, lines, decode, server, order, elapsed, inputPath) ==
              Err(PoolError(Get(config, "concurrent_requests", Int(10))).value)
  {
  }

  /** The run that gets through, spelled out: the records and statistics of the outcomes of
      the requests over the input items. */
  lemma RunIs(config: Dict, lines: seq<string>, decode: string -> Option<Value>,
              server: (nat, Value, Dict) -> GeminiReply, order: seq<nat>, elapsed: real, inputPath: string, run: Run)
    requires IsCompletionOrder(order, |Filter(lines, NonBlank)|)
    requires RunSpec(config, lines, decode, server, order, elapsed, inputPath) == Ok(run)
    ensures DatasetOf(lines, decode).Ok? && Connection(config).Ok?
    ensures forall i :: 0 <= i < |DatasetOf(lines, decode).value| ==> DatasetOf(lines, decode).value[i].Obj?
    ensures IsCompletionOrder(order, |DatasetOf(lines, decode).value|)
    ensures run.output == Records(Outcomes(Connection(config).value.0, Connection(config).value.3,
                                           Objects(DatasetOf(lines, decode).value), server))
    ensures run.stats == RunStats(Outcomes(Connection(config).value.0, Connection(config).value.3,
                                           Objects(DatasetOf(lines, decode).value), server), order, elapsed)
  {
    RunSucceeds(config, lines, decode, server, order, elapsed, inputPath);
    DatasetOfSpec(lines, decode);
  }

  /** Over items without a `response` or an `error` of their own, a request that raised
      leaves no response and an `error` in its record. */
  lemma FailuresMarked(apiKey: Value, generationConfig: Dict, data: seq<Dict>, server: (nat, Value, Dict) -> GeminiReply)
    requires forall i :: 0 <= i < |data| ==> !HasKey(data[i], "response") && !HasKey(data[i], "error")
    ensures var outcomes := Outcomes(apiKey, generationConfig, data, server);
            forall i :: 0 <= i < |outcomes| && outcomes[i].error.Some? ==>
              !Responded(outcomes[i].record) && HasKey(outcomes[i].record, "error")
  {
    var outcomes := Outcomes(apiKey, generationConfig, data, server);
    forall i | 0 <= i < |outcomes| && outcomes[i].error.Some?
      ensures !Responded(outcomes[i].record) && HasKey(outcomes[i].record, "error")
    {
      var answer := AnswerTo(apiKey, generationConfig, data[i], i, server);
      RecordFailure(data[i], i, answer.error);
    }
  }

  /** `successful` counts the written records holding a response, `failed` the rest, and
      the failed ids name no request twice. */
  lemma RunCounts(config: Dict, lines: seq<string>, decode: string -> Option<Value>,
                  server: (nat, Value, Dict) -> GeminiReply, order: seq<nat>, elapsed: real, inputPath: string, run: Run)
    requires IsCompletionOrder(order, |Filter(lines, NonBlank)|)
    requires RunSpec(config, lines, decode, server, order, elapsed, inputPath) == Ok(run)
    ensures run.stats.total == |run.output|
    ensures run.stats.successful == |Filter(run.output, Responded)|
    ensures run.stats.failed == |run.output| - run.stats.successful
    ensures Distinct(run.stats.failedIds)
  {
    RunIs(config, lines, decode, server, order, elapsed, inputPath, run);
    var outcomes := Outcomes(Connection(config).value.0, Connection(config).value.3,
                             Objects(DatasetOf(lines, decode).value), server);
    StatsSpec(outcomes, order, elapsed);
  }

  /** When no input line holds its own `response` or `error`, there are at most as many
      failed ids as failed requests, and strictly fewer as soon as a record has neither a
      response nor an error: a candidate that stopped normally without content counts as
      failed without being reported. */
  lemma RunFailedIdsBound(config: Dict, lines: seq<string>, decode: string -> Option<Value>,
                          server: (nat, Value, Dict) -> GeminiReply, order: seq<nat>, elapsed: real, inputPath: string,
                          run: Run)
    requires IsCompletionOrder(order, |Filter(lines, NonBlank)|)
    requires forall line, v :: line in lines && decode(line) == Some(v) && v.Obj? ==>
               !HasKey(AsDict(v).value, "response") && !HasKey(AsDict(v).value, "error")
    requires RunSpec(config, lines, decode, server, order, elapsed, inputPath) == Ok(run)
    ensures |run.stats.failedIds| <= run.stats.failed
    ensures (exists i :: 0 <= i < |run.output| && !HasKey(run.output[i], "error") && !Responded(run.output[i])) ==>
              |run.stats.failedIds| < run.stats.failed
  {
    RunIs(config, lines, decode, server, order, elapsed, inputPath, run);
    var data := Objects(DatasetOf(lines, decode).value);
    var outcomes := Outcomes(Connection(config).value.0, Connection(config).value.3, data, server);
    NoKeyInData(lines, decode, "response");
    NoKeyInData(lines, decode, "error");
    FailuresMarked(Connection(config).value.0, Connection(config).value.3, data, server);
    FailedIdsBound(outcomes, order, elapsed);
  }
}
