/** src/utils/inference.py: a batch of chat-completion requests to an OpenAI-compatible
    server, one per non-blank line of a JSON Lines file, each turned into one output record.

    The server is a parameter: `server(i, payload)` is what the HTTP exchange of request `i`
    with that payload yields. */
module Inference {
  import opened Wrappers
  import opened Json
  import opened Seqs
  import opened Batch
  import Paths

  /** What the HTTP exchange yields: the message of an exception raised by `requests.post`,
      `raise_for_status` or `.json()`, or the decoded body of a successful reply. */
  datatype ChatReply = Raised(text: string) | Body(json: Value)

  /** The request body: the configuration, then the single user message and `stream: false`. */
  function Payload(ploadConfig: Dict, prompt: Value): Dict {
    Spread(ploadConfig, [("messages", Arr([Obj([("role", Str("user")), ("content", prompt)])])),
                         ("stream", Bool(false))])
  }

  /** The payload carries the prompt as its one user message and asks for no streaming; every
      other configuration key is passed through. */
  lemma PayloadSpec(ploadConfig: Dict, prompt: Value)
    ensures Lookup(Payload(ploadConfig, prompt), "messages") ==
            Some(Arr([Obj([("role", Str("user")), ("content", prompt)])]))
    ensures Lookup(Payload(ploadConfig, prompt), "stream") == Some(Bool(false))
    ensures forall k :: k != "messages" && k != "stream" ==>
              Lookup(Payload(ploadConfig, prompt), k) == Lookup(ploadConfig, k)
  {
    var e: Dict := [("messages", Arr([Obj([("role", Str("user")), ("content", prompt)])])),
                    ("stream", Bool(false))];
    SpreadAll(ploadConfig, e);
    assert IndexOf(e, "stream") == Some(1);
  }

  /** The try block up to the record: the first choice's message, its `reasoning_content`
      (None when absent) and its `content`; or the message of the exception raised. */
  function Answer(reply: ChatReply): Result<(Value, Value), string> {
    match reply
    case Raised(text) => Err(text)
    case Body(json) =>
      var choices :- Item(json, "choices");
      var choice :- First(choices);
      var message :- Item(choice, "message");
      var reasoning :- DictGet(message, "reasoning_content", Null);
      var content :- Item(message, "content");
      Ok((reasoning, content))
  }

  /** A well-formed body yields the first choice's content and reasoning; a body without
      `choices`, with no choice, or whose first choice has no message or no content raises
      the KeyError or IndexError Python raises. */
  lemma AnswerCases(json: Value)
    ensures var choices := Item(json, "choices");
            var a := Answer(Body(json));
            (choices.Err? && json.Obj? ==> a == Err("'choices'")) &&
            (choices == Ok(Arr([])) ==> a == Err("list index out of range")) &&
            (choices.Ok? && choices.value.Arr? && choices.value.items != [] ==>
               var choice := choices.value.items[0];
               (choice.Obj? && !HasKey(AsDict(choice).value, "message") ==> a == Err("'message'")) &&
               (Item(choice, "message").Ok? && Item(choice, "message").value.Obj? ==>
                  var message := AsDict(Item(choice, "message").value).value;
                  (!HasKey(message, "content") ==> a == Err("'content'")) &&
                  (HasKey(message, "content") ==>
                     a == Ok((Get(message, "reasoning_content", Null), Lookup(message, "content").value)))))
  {
    assert "'" + "choices" + "'" == "'choices'";
    assert "'" + "message" + "'" == "'message'";
    assert "'" + "content" + "'" == "'content'";
  }

  /** The record of a request that was answered: id, reasoning and response first. */
  function SuccessBase(id: nat, reasoning: Value, content: Value): (r: Dict)
    ensures Lookup(r, "request_id") == Some(Int(id))
    ensures Lookup(r, "reasoning") == Some(reasoning)
    ensures Lookup(r, "response") == Some(content)
    ensures forall k :: HasKey(r, k) <==> k == "request_id" || k == "reasoning" || k == "response"
  {
    var r: Dict := [("request_id", Int(id)), ("reasoning", reasoning), ("response", content)];
    IndexOfIs(r, "reasoning", 1);
    IndexOfIs(r, "response", 2);
    r
  }

  /** The record of a request that raised: id, prompt and a null response first. */
  function FailureBase(id: nat, prompt: Value): (r: Dict)
    ensures Lookup(r, "request_id") == Some(Int(id))
    ensures Lookup(r, "prompt") == Some(prompt)
    ensures Lookup(r, "response") == Some(Null)
    ensures forall k :: HasKey(r, k) <==> k == "request_id" || k == "prompt" || k == "response"
  {
    var r: Dict := [("request_id", Int(id)), ("prompt", prompt), ("response", Null)];
    IndexOfIs(r, "prompt", 1);
    IndexOfIs(r, "response", 2);
    r
  }

  /** The try/except of `send_request` once the exchange is over: the record, with `**data`
      spread last, and the error text when the exchange raised. */
  function Record(data: Dict, id: nat, answer: Result<(Value, Value), string>): Outcome {
    match answer
    case Ok((reasoning, content)) => Outcome(Spread(SuccessBase(id, reasoning, content), data), None)
    case Err(e) => Outcome(Spread(FailureBase(id, Get(data, "prompt", Null)), data), Some(e))
  }

  /** The answer request `id` receives to the payload built from its prompt. */
  function AnswerTo(ploadConfig: Dict, data: Dict, id: nat, server: (nat, Dict) -> ChatReply): Result<(Value, Value), string> {
    Answer(server(id, Payload(ploadConfig, Get(data, "prompt", Null))))
  }

  /** `send_request`: the record of request `id` and, when it raised, the error text. */
  function SendRequest(ploadConfig: Dict, data: Dict, id: nat, server: (nat, Dict) -> ChatReply): Outcome {
    Record(data, id, AnswerTo(ploadConfig, data, id, server))
  }

  /** An answered request: the record echoes every input field with its input value
      (`**data` comes last) and otherwise holds the request id, the reasoning and the
      response; no error is reported. */
  lemma RecordSuccess(data: Dict, id: nat, reasoning: Value, content: Value)
    ensures var o := Record(data, id, Ok((reasoning, content)));
            o.error.None? &&
            (forall k :: HasKey(data, k) ==> Lookup(o.record, k) == Lookup(data, k)) &&
            (!HasKey(data, "request_id") ==> Lookup(o.record, "request_id") == Some(Int(id))) &&
            (!HasKey(data, "reasoning") ==> Lookup(o.record, "reasoning") == Some(reasoning)) &&
            (!HasKey(data, "response") ==> Lookup(o.record, "response") == Some(content)) &&
            (forall k :: HasKey(o.record, k) <==>
               k == "request_id" || k == "reasoning" || k == "response" || HasKey(data, k))
  {
    SpreadAll(SuccessBase(id, reasoning, content), data);
  }

  /** A request that raised: the error text is reported; the record echoes the input, has the
      input's prompt and a null response (unless the input has one), and no `error` field of
      its own, the message going only to the errors of the run. */
  lemma RecordFailure(data: Dict, id: nat, e: string)
    ensures var o := Record(data, id, Err(e));
            o.error == Some(e) &&
            (forall k :: HasKey(data, k) ==> Lookup(o.record, k) == Lookup(data, k)) &&
            (!HasKey(data, "request_id") ==> Lookup(o.record, "request_id") == Some(Int(id))) &&
            (!HasKey(data, "response") ==> Lookup(o.record, "response") == Some(Null)) &&
            Lookup(o.record, "prompt") == Some(Get(data, "prompt", Null)) &&
            (HasKey(o.record, "error") <==> HasKey(data, "error"))
  {
    SpreadAll(FailureBase(id, Get(data, "prompt", Null)), data);
  }

  /** When the input item has none of the record's own keys, the record is those keys, in
      order, followed by the input's fields in their order. */
  lemma RecordLayout(data: Dict, id: nat, answer: Result<(Value, Value), string>)
    requires forall j :: 0 <= j < |data| ==>
               data[j].0 != "request_id" && data[j].0 != "reasoning" && data[j].0 != "prompt" && data[j].0 != "response"
    ensures var o := Record(data, id, answer);
            |o.record| == 3 + |data| && o.record[3..] == data && o.record[0] == ("request_id", Int(id)) &&
            (answer.Ok? ==> o.record[1] == ("reasoning", answer.value.0) && o.record[2] == ("response", answer.value.1)) &&
            (answer.Err? ==> o.record[1] == ("prompt", Get(data, "prompt", Null)) && o.record[2] == ("response", Null))
  {
    var base := if answer.Ok? then SuccessBase(id, answer.value.0, answer.value.1)
                else FailureBase(id, Get(data, "prompt", Null));
    forall i | 0 <= i < |data| ensures !HasKey(base, data[i].0) {
    }
    SpreadDisjoint(base, data);
  }

  /** A run that got past its configuration and input. */
  datatype Run = Run(url: string, concurrency: Value, output: seq<Dict>, stats: Stats, statsPath: string)

  /** `f"http://{hostname}:{port}/v1/chat/completions"`. */
  function Url(hostname: Value, port: Value): string {
    "http://" + Render(hostname) + ":" + Render(port) + "/v1/chat/completions"
  }

  /** The outcome of each request, in request order. */
  function Outcomes(ploadConfig: Dict, dataset: seq<Dict>, server: (nat, Dict) -> ChatReply): (r: seq<Outcome>)
    ensures |r| == |dataset|
    ensures forall i :: 0 <= i < |r| ==> r[i] == SendRequest(ploadConfig, dataset[i], i, server)
  {
    seq(|dataset|, i requires 0 <= i < |dataset| => SendRequest(ploadConfig, dataset[i], i, server))
  }

  /** The connection keys popped off the configuration: `hostname` and `port` (a KeyError
      when missing) and the pool size (10 when missing); what is left is the payload
      configuration. */
  function Connection(config: Dict): (r: Result<(Value, Value, Value, Dict), Crash>)
    ensures !HasKey(config, "hostname") ==> r == Err(KeyError("hostname"))
    ensures HasKey(config, "hostname") && !HasKey(config, "port") ==> r == Err(KeyError("port"))
    ensures HasKey(config, "hostname") && HasKey(config, "port") ==>
              r.Ok? &&
              Some(r.value.0) == Lookup(config, "hostname") && Some(r.value.1) == Lookup(config, "port") &&
              r.value.2 == Get(config, "concurrent_requests", Int(10))
  {
    match Pop(config, "hostname")
    case None => Err(KeyError("hostname"))
    case Some((hostname, afterHost)) =>
      assert "port" != "hostname" && "concurrent_requests" != "hostname" && "concurrent_requests" != "port";
      match Pop(afterHost, "port")
      case None =>
        assert Lookup(afterHost, "port") == Lookup(config, "port");
        Err(KeyError("port"))
      case Some((port, afterPort)) =>
        var (concurrency, ploadConfig) := PopOr(afterPort, "concurrent_requests", Int(10));
        assert Lookup(afterPort, "concurrent_requests") == Lookup(config, "concurrent_requests");
        Ok((hostname, port, concurrency, ploadConfig))
  }

  /** The payload configuration is the configuration without the three connection keys. */
  lemma ConnectionRest(config: Dict)
    requires Connection(config).Ok?
    ensures forall k :: k != "hostname" && k != "port" && k != "concurrent_requests" ==>
              Lookup(Connection(config).value.3, k) == Lookup(config, k)
    ensures !HasKey(Connection(config).value.3, "hostname") && !HasKey(Connection(config).value.3, "port") &&
            !HasKey(Connection(config).value.3, "concurrent_requests")
  {
    var afterHost := Pop(config, "hostname").value.1;
    var afterPort := Pop(afterHost, "port").value.1;
    RemovedThree(config, afterHost, afterPort, Connection(config).value.3, "hostname", "port", "concurrent_requests");
  }

  /** The three `config.pop` calls, each changing the configuration in place. */
  method PopConnection(config: Dict) returns (r: Result<(Value, Value, Value, Dict), Crash>)
    ensures r == Connection(config)
  {
    var rest := config;
    var popped := Pop(rest, "hostname");
    if popped.None? {
      return Err(KeyError("hostname"));
    }
    var hostname := popped.value.0;
    rest := popped.value.1;
    popped := Pop(rest, "port");
    if popped.None? {
      return Err(KeyError("port"));
    }
    var port := popped.value.0;
    rest := popped.value.1;
    var withDefault := PopOr(rest, "concurrent_requests", Int(10));
    var concurrency := withDefault.0;
    rest := withDefault.1;
    return Ok((hostname, port, concurrency, rest));
  }

  /** What `run_inference` does once the configuration is split: the dataset is read, the
      pool of `concurrency` workers is made, every request is sent, and the records are written in request order with the statistics. */
  function Requests(ploadConfig: Dict, concurrency: Value, lines: seq<string>, decode: string -> Option<Value>,
                    server: (nat, Dict) -> ChatReply, order: seq<nat>, elapsed: real): Result<(seq<Dict>, Stats), Crash>
    requires IsCompletionOrder(order, |Filter(lines, NonBlank)|)
  {
    match DatasetOf(lines, decode)
    case Err(e) => Err(e)
    case Ok(values) =>
      DatasetLength(lines, decode);
      if PoolError(concurrency).Some? then Err(PoolError(concurrency).value)
      else match FirstNonObject(values, order)
      case Some(k) => Err(AttributeError(k, TypeName(values[k])))
      case None =>
        AllObjects(values, order);
        var outcomes := Outcomes(ploadConfig, Objects(values), server);
        Ok((Records(outcomes), RunStats(outcomes, order, elapsed)))
  }

  /** `run_inference`. */
  function RunSpec(config: Dict, lines: seq<string>, decode: string -> Option<Value>,
                   server: (nat, Dict) -> ChatReply, order: seq<nat>, elapsed: real, inputPath: string): Result<Run, Crash>
    requires IsCompletionOrder(order, |Filter(lines, NonBlank)|)
  {
    var (hostname, port, concurrency, ploadConfig) :- Connection(config);
    var (output, stats) :- Requests(ploadConfig, concurrency, lines, decode, server, order, elapsed);
    Ok(Run(Url(hostname, port), concurrency, output, stats, Paths.StatsPath(inputPath)))
  }

  /** The body of `run_inference` after the configuration is split: the input is read line
      by line, and the completed futures are collected. */
  method SendAll(ploadConfig: Dict, concurrency: Value, lines: seq<string>, decode: string -> Option<Value>,
                 server: (nat, Dict) -> ChatReply, order: seq<nat>, elapsed: real)
    returns (r: Result<(seq<Dict>, Stats), Crash>)
    requires IsCompletionOrder(order, |Filter(lines, NonBlank)|)
    ensures r == Requests(ploadConfig, concurrency, lines, decode, server, order, elapsed)
  {
    var loaded := LoadDataset(lines, decode);
    if loaded.Err? {
      return Err(loaded.error);
    }
    var dataset := loaded.value;
    var poolError := PoolError(concurrency);
    if poolError.Some? {
      return Err(poolError.value);
    }
    DatasetOfSpec(lines, decode);
    var bad := FirstNonObject(dataset, order);
    if bad.Some? {
      return Err(AttributeError(bad.value, TypeName(dataset[bad.value])));
    }
    CompletionOrderMembers(order, |dataset|);
    var outcomes := Outcomes(ploadConfig, Objects(dataset), server);
    var output, stats := Finish(outcomes, order, elapsed);
    return Ok((output, stats));
  }

  /** `run_inference`, step by step: the configuration is popped in place, then the requests
      are sent. */
  method RunInference(config: Dict, lines: seq<string>, decode: string -> Option<Value>,
                      server: (nat, Dict) -> ChatReply, order: seq<nat>, elapsed: real, inputPath: string)
    returns (r: Result<Run, Crash>)
    requires IsCompletionOrder(order, |Filter(lines, NonBlank)|)
    ensures r == RunSpec(config, lines, decode, server, order, elapsed, inputPath)
  {
    var connection := PopConnection(config);
    if connection.Err? {
      return Err(connection.error);
    }
    var (hostname, port, concurrency, ploadConfig) := connection.value;
    var url := Url(hostname, port);
    var sent := SendAll(ploadConfig, concurrency, lines, decode, server, order, elapsed);
    if sent.Err? {
      return Err(sent.error);
    }
    var (output, stats) := sent.value;
    return Ok(Run(url, concurrency, output, stats, Paths.StatsPath(inputPath)));
  }

  /** A run gets through exactly when the configuration names a host and a port, every
      non-blank input line is JSON, the pool size is accepted (absent, `None` or a positive
      number) and every input item is an object. */
  lemma RunSucceeds(config: Dict, lines: seq<string>, decode: string -> Option<Value>,
                    server: (nat, Dict) -> ChatReply, order: seq<nat>, elapsed: real, inputPath: string)
    requires IsCompletionOrder(order, |Filter(lines, NonBlank)|)
    ensures RunSpec(config, lines, decode, server, order, elapsed, inputPath).Ok? <==>
            HasKey(config, "hostname") && HasKey(config, "port") && DatasetOf(lines, decode).Ok? &&
            PoolError(Get(config, "concurrent_requests", Int(10))).None? &&
            forall i :: 0 <= i < |DatasetOf(lines, decode).value| ==> DatasetOf(lines, decode).value[i].Obj?
  {
    DatasetOfSpec(lines, decode);
    var d := DatasetOf(lines, decode);
    if d.Ok? {
      CompletionOrderMembers(order, |d.value|);
      var bad := FirstNonObject(d.value, order);
      if bad.None? {
        forall i | 0 <= i < |d.value| ensures d.value[i].Obj? {
          assert (i as nat) in order;
        }
      }
    }
  }

  /** The configuration error comes first: without a host the run raises KeyError('hostname')
      and without a port KeyError('port'), whatever the input. */
  lemma RunConfigErrors(config: Dict, lines: seq<string>, decode: string -> Option<Value>,
                        server: (nat, Dict) -> ChatReply, order: seq<nat>, elapsed: real, inputPath: string)
    requires IsCompletionOrder(order, |Filter(lines, NonBlank)|)
    ensures !HasKey(config, "hostname") ==>
              RunSpec(config, lines, decode, server, order, elapsed, inputPath) == Err(KeyError("hostname"))
    ensures HasKey(config, "hostname") && !HasKey(config, "port") ==>
              RunSpec(config, lines, decode, server, order, elapsed, inputPath) == Err(KeyError("port"))
  {
  }

  /** The records of the outcomes over the input items: one per item, and record `i` is what
      `send_request` made of input item `i`, so the request id is `i` and the input fields are
      echoed. */
  lemma OutcomeRecords(ploadConfig: Dict, dataset: seq<Value>, server: (nat, Dict) -> ChatReply, output: seq<Dict>)
    requires forall i :: 0 <= i < |dataset| ==> dataset[i].Obj?
    requires output == Records(Outcomes(ploadConfig, Objects(dataset), server))
    ensures |output| == |dataset|
    ensures forall i :: 0 <= i < |output| ==>
              dataset[i].Obj? && output[i] == SendRequest(ploadConfig, AsDict(dataset[i]).value, i, server).record
  {
  }

  /** A run that gets through had a host and a port; it posts to the server at `host:port`
      with a pool of `concurrent_requests` workers (10 by default), and the statistics go
      next to the input file. */
  lemma RunShape(config: Dict, lines: seq<string>, decode: string -> Option<Value>,
                 server: (nat, Dict) -> ChatReply, order: seq<nat>, elapsed: real, inputPath: string, run: Run)
    requires IsCompletionOrder(order, |Filter(lines, NonBlank)|)
    requires RunSpec(config, lines, decode, server, order, elapsed, inputPath) == Ok(run)
    ensures HasKey(config, "hostname") && HasKey(config, "port")
    ensures run.url == Url(Lookup(config, "hostname").value, Lookup(config, "port").value)
    ensures run.concurrency == Get(config, "concurrent_requests", Int(10)) && PoolError(run.concurrency).None?
    ensures run.statsPath == Paths.StatsPath(inputPath)
  {
  }

  /** With a host and a port and a readable input, a refused pool size ends the run with its
      ValueError or TypeError before any request is sent, whatever the items are. */
  lemma RunPoolError(config: Dict, lines: seq<string>, decode: string -> Option<Value>,
                     server: (nat, Dict) -> ChatReply, order: seq<nat>, elapsed: real, inputPath: string)
    requires IsCompletionOrder(order, |Filter(lines, NonBlank)|)
    ensures HasKey(config, "hostname") && HasKey(config, "port") && DatasetOf(lines, decode).Ok? &&
            PoolError(Get(config, "concurrent_requests", Int(10))).Some? ==>
              RunSpec(config, lines, decode, server, order, elapsed, inputPath) ==
              Err(PoolError(Get(config, "concurrent_requests", Int(10))).value)
  {
  }

  /** A request over an item with no `response` of its own that raised leaves no response
      in its record. */
  lemma FailuresSilent(ploadConfig: Dict, data: seq<Dict>, server: (nat, Dict) -> ChatReply)
    requires forall i :: 0 <= i < |data| ==> !HasKey(data[i], "response")
    ensures var outcomes := Outcomes(ploadConfig, data, server);
            forall i :: 0 <= i < |outcomes| && outcomes[i].error.Some? ==> !Responded(outcomes[i].record)
  {
    var outcomes := Outcomes(ploadConfig, data, server);
    forall i | 0 <= i < |outcomes| && outcomes[i].error.Some? ensures !Responded(outcomes[i].record) {
      RecordFailure(data[i], i, outcomes[i].error.value);
    }
  }

  /** The run that gets through, spelled out: the records and statistics of the outcomes of
      the requests over the input items. */
  lemma RunIs(config: Dict, lines: seq<string>, decode: string -> Option<Value>,
              server: (nat, Dict) -> ChatReply, order: seq<nat>, elapsed: real, inputPath: string, run: Run)
    requires IsCompletionOrder(order, |Filter(lines, NonBlank)|)
    requires RunSpec(config, lines, decode, server, order, elapsed, inputPath) == Ok(run)
    ensures DatasetOf(lines, decode).Ok? && Connection(config).Ok?
    ensures forall i :: 0 <= i < |DatasetOf(lines, decode).value| ==> DatasetOf(lines, decode).value[i].Obj?
    ensures IsCompletionOrder(order, |DatasetOf(lines, decode).value|)
    ensures run.output == Records(Outcomes(Connection(config).value.3, Objects(DatasetOf(lines, decode).value), server))
    ensures run.stats == RunStats(Outcomes(Connection(config).value.3, Objects(DatasetOf(lines, decode).value), server), order, elapsed)
  {
    RunSucceeds(config, lines, decode, server, order, elapsed, inputPath);
    DatasetOfSpec(lines, decode);
  }

  /** The counts of a run whose output and statistics are those of `outcomes`. */
  lemma RunCountsOf(run: Run, outcomes: seq<Outcome>, order: seq<nat>, elapsed: real)
    requires IsCompletionOrder(order, |outcomes|)
    requires run.output == Records(outcomes) && run.stats == RunStats(outcomes, order, elapsed)
    ensures run.stats.total == |run.output|
    ensures run.stats.successful == |Filter(run.output, Responded)|
    ensures run.stats.failed == |run.output| - run.stats.successful
    ensures Distinct(run.stats.failedIds)
    ensures (forall i :: 0 <= i < |outcomes| && outcomes[i].error.Some? ==> !Responded(outcomes[i].record)) ==>
              |run.stats.failedIds| <= run.stats.failed
  {
    StatsSpec(outcomes, order, elapsed);
  }

  /** `successful` counts the written records holding a response, `failed` the rest, and
      the failed ids name no request twice. */
  lemma RunCounts(config: Dict, lines: seq<string>, decode: string -> Option<Value>,
                  server: (nat, Dict) -> ChatReply, order: seq<nat>, elapsed: real, inputPath: string, run: Run)
    requires IsCompletionOrder(order, |Filter(lines, NonBlank)|)
    requires RunSpec(config, lines, decode, server, order, elapsed, inputPath) == Ok(run)
    ensures run.stats.total == |run.output|
    ensures run.stats.successful == |Filter(run.output, Responded)|
    ensures run.stats.failed == |run.output| - run.stats.successful
    ensures Distinct(run.stats.failedIds)
  {
    RunIs(config, lines, decode, server, order, elapsed, inputPath, run);
    var outcomes := Outcomes(Connection(config).value.3, Objects(DatasetOf(lines, decode).value), server);
    RunCountsOf(run, outcomes, order, elapsed);
  }

  /** When no input line holds a `response` of its own, a request that raised is never
      counted successful, so there are at most as many failed ids as failed requests. */
  lemma RunFailedIdsBound(config: Dict, lines: seq<string>, decode: string -> Option<Value>,
                          server: (nat, Dict) -> ChatReply, order: seq<nat>, elapsed: real, inputPath: string, run: Run)
    requires IsCompletionOrder(order, |Filter(lines, NonBlank)|)
    requires forall line, v :: line in lines && decode(line) == Some(v) && v.Obj? ==> !HasKey(AsDict(v).value, "response")
    requires RunSpec(config, lines, decode, server, order, elapsed, inputPath) == Ok(run)
    ensures |run.stats.failedIds| <= run.stats.failed
  {
    RunIs(config, lines, decode, server, order, elapsed, inputPath, run);
    var data := Objects(DatasetOf(lines, decode).value);
    var outcomes := Outcomes(Connection(config).value.3, data, server);
    NoKeyInData(lines, decode, "response");
    FailuresSilent(Connection(config).value.3, data, server);
    RunCountsOf(run, outcomes, order, elapsed);
  }
}
