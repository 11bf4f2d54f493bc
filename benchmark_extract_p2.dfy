/** src/benchmark/extract_p2.py: one prompt per Markdown paper, built from the text before
    its discussion, with papers whose text is blank left out and papers that cannot be read
    reported and passed over.

    The folder listing is given as the files in listing order, each with its name and the
    outcome of reading it (the text, or the message of the exception); the template is a
    parameter (its text is not part of this model). */
module BenchmarkExtractP2 {
  import opened Wrappers
  import opened Json
  import BenchmarkMarkdown
  import Text

  const Placeholder := "{{paper}}"

  /** A `*.md` file of the input folder: its name, and its text or the reading error. */
  datatype MdFile = MdFile(name: string, text: Result<string, string>)

  /** What `build_prompts` does with one file. */
  datatype Outcome = Prompted(prompt: string) | Skipped | Failed(message: string)

  /** `cut_paper` of this script: the text before the first `\n## discussion\n`, in any
      case; unlike the benchmark's own `cut_paper`, article markers stay. */
  function CutPaper(text: string): string {
    BenchmarkMarkdown.BeforeDiscussion(text)
  }

  /** The cut text is a prefix of the paper that contains no discussion header, ends where
      the first one starts, and keeps every `## article` of that prefix. */
  lemma CutPaperSpec(text: string)
    ensures Text.StartsWith(text, CutPaper(text))
    ensures forall j :: 0 <= j < |CutPaper(text)| ==>
              !Text.MatchesAtIgnoreCase(text, j, BenchmarkMarkdown.DiscussionMarker)
    ensures |CutPaper(text)| < |text| ==>
              Text.MatchesAtIgnoreCase(text, |CutPaper(text)|, BenchmarkMarkdown.DiscussionMarker)
    ensures forall j: nat :: j + |BenchmarkMarkdown.ArticleMarker| <= |CutPaper(text)| ==>
              (Text.MatchesAtIgnoreCase(CutPaper(text), j, BenchmarkMarkdown.ArticleMarker) <==>
               Text.MatchesAtIgnoreCase(text, j, BenchmarkMarkdown.ArticleMarker))
  {
    var cut := CutPaper(text);
    assert cut == text[..|cut|];
    forall j: nat | j + |BenchmarkMarkdown.ArticleMarker| <= |cut|
      ensures Text.MatchesAtIgnoreCase(cut, j, BenchmarkMarkdown.ArticleMarker) <==>
              Text.MatchesAtIgnoreCase(text, j, BenchmarkMarkdown.ArticleMarker)
    {
    }
  }

  /** The body of `for md_file in ...`: the prompt of a readable paper whose cut text is not
      blank, nothing for a blank one, and the logged message for one that raises. */
  function FileOutcome(template: string, f: MdFile): Outcome {
    match f.text
    case Err(e) => Failed("Error processing file " + f.name + ": " + e)
    case Ok(text) =>
      var mainText := CutPaper(text);
      if Text.Strip(mainText) == [] then Skipped else Prompted(Text.Replace(template, Placeholder, mainText))
  }

  /** A file gives a prompt exactly when it is readable and its cut text has a non-space
      character; the prompt is the template with that text in place of `{{paper}}`. */
  lemma FileOutcomeSpec(template: string, f: MdFile)
    ensures FileOutcome(template, f).Prompted? <==> f.text.Ok? && !Text.IsBlank(CutPaper(f.text.value))
    ensures FileOutcome(template, f).Skipped? <==> f.text.Ok? && Text.IsBlank(CutPaper(f.text.value))
    ensures FileOutcome(template, f).Failed? <==> f.text.Err?
    ensures FileOutcome(template, f).Prompted? ==>
              FileOutcome(template, f).prompt == Text.Replace(template, Placeholder, CutPaper(f.text.value))
  {
    if f.text.Ok? {
      Text.StripEmptyIffBlank(CutPaper(f.text.value));
    }
  }

  /** The prompts of the files, in listing order. */
  function Prompts(template: string, files: seq<MdFile>): seq<string>
    decreases |files|
  {
    if files == [] then []
    else
      var rest := Prompts(template, files[..|files| - 1]);
      match FileOutcome(template, files[|files| - 1])
      case Prompted(p) => rest + [p]
      case _ => rest
  }

  /** The messages printed for the files that raised, in listing order. */
  function Errors(template: string, files: seq<MdFile>): seq<string>
    decreases |files|
  {
    if files == [] then []
    else
      var rest := Errors(template, files[..|files| - 1]);
      match FileOutcome(template, files[|files| - 1])
      case Failed(m) => rest + [m]
      case _ => rest
  }

  /** The number of files passed over as blank. */
  function SkippedCount(template: string, files: seq<MdFile>): nat
    decreases |files|
  {
    if files == [] then 0
    else SkippedCount(template, files[..|files| - 1]) + if FileOutcome(template, files[|files| - 1]).Skipped? then 1 else 0
  }

  /** Each file is handled on its own: the prompts of two runs of files are those of the
      first run followed by those of the second, so a file that raises stops nothing after
      it. */
  lemma {:induction false} PromptsAppend(template: string, a: seq<MdFile>, b: seq<MdFile>)
    ensures Prompts(template, a + b) == Prompts(template, a) + Prompts(template, b)
    decreases |b|
  {
    if b == [] {
      assert a + b == a;
    } else {
      var init := b[..|b| - 1];
      PromptsAppend(template, a, init);
      assert (a + b)[..|a + b| - 1] == a + init;
    }
  }

  /** The messages of two runs of files are those of the first run followed by those of the
      second. */
  lemma {:induction false} ErrorsAppend(template: string, a: seq<MdFile>, b: seq<MdFile>)
    ensures Errors(template, a + b) == Errors(template, a) + Errors(template, b)
    decreases |b|
  {
    if b == [] {
      assert a + b == a;
    } else {
      var init := b[..|b| - 1];
      ErrorsAppend(template, a, init);
      assert (a + b)[..|a + b| - 1] == a + init;
    }
  }

  /** One file gives one prompt, one message or nothing, as `FileOutcome` says. */
  lemma PromptsSingle(template: string, f: MdFile)
    ensures Prompts(template, [f]) == if FileOutcome(template, f).Prompted? then [FileOutcome(template, f).prompt] else []
    ensures Errors(template, [f]) == if FileOutcome(template, f).Failed? then [FileOutcome(template, f).message] else []
  {
    assert [f][..0] == [];
  }

  /** Every file is accounted for exactly once: prompted, skipped as blank, or reported. */
  lemma {:induction false} OutcomesPartition(template: string, files: seq<MdFile>)
    ensures |Prompts(template, files)| + SkippedCount(template, files) + |Errors(template, files)| == |files|
    decreases |files|
  {
    if files != [] {
      OutcomesPartition(template, files[..|files| - 1]);
    }
  }

  /** The record written for a prompt: exactly `{"prompt": p}`. */
  function Records(prompts: seq<string>): seq<Dict> {
    seq(|prompts|, i requires 0 <= i < |prompts| => [("prompt", Str(prompts[i]))])
  }

  /** `build_prompts` up to the file it writes: the records, in listing order, and the
      messages printed. */
  method BuildPrompts(template: string, files: seq<MdFile>) returns (records: seq<Dict>, log: seq<string>)
    ensures records == Records(Prompts(template, files))
    ensures log == Errors(template, files)
    ensures |records| + |log| <= |files|
  {
    var prompts: seq<string> := [];
    log := [];
    for n := 0 to |files|
      invariant prompts == Prompts(template, files[..n])
      invariant log == Errors(template, files[..n])
    {
      assert files[..n + 1][..n] == files[..n];
      var f := files[n];
      if f.text.Err? {
        log := log + ["Error processing file " + f.name + ": " + f.text.error];
        continue;
      }
      var mainText := CutPaper(f.text.value);
      if Text.Strip(mainText) == [] {
        continue;
      }
      var prompt := Text.Replace(template, Placeholder, mainText);
      prompts := prompts + [prompt];
    }
    assert files[..|files|] == files;
    records := [];
    for i := 0 to |prompts|
      invariant records == Records(prompts[..i])
    {
      records := records + [[("prompt", Str(prompts[i]))]];
    }
    assert prompts[..|prompts|] == prompts;
    OutcomesPartition(template, files);
  }
}
