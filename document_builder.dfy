/** src/utils/document_builder.py: the Markdown documents built from a paper's extraction
    JSON, under five switches (intro, results, discussion, one document per results
    subsection, figures).

    The paper is given with its fields already typed: a field the JSON lacks is `None`, and
    a missing `results` or `subsections` is an empty list of subsections. */
module DocumentBuilder {
  import opened Wrappers
  import Text

  datatype Subsection = Subsection(title: Option<string>, content: Option<string>, figures: seq<string>)

  datatype Paper = Paper(
    articleTitle: Option<string>,
    abstractText: Option<string>,
    introduction: Option<string>,
    discussion: Option<string>,
    subsections: seq<Subsection>)

  /** The first line of every intro. */
  function TitleLine(data: Paper): string {
    "# " + data.articleTitle.GetOr("Untitled") + "\n\n"
  }

  /** `build_intro_md`: the title line, then the abstract and the introduction when the
      paper has them. */
  function IntroMd(data: Paper): string {
    var abstractMd := if data.abstractText.Some? then "## Abstract\n\n" + data.abstractText.value + "\n\n" else "";
    var introductionMd := if data.introduction.Some? then "## Introduction\n\n" + data.introduction.value + "\n\n" else "";
    TitleLine(data) + abstractMd + introductionMd
  }

  /** The intro starts with the title line and holds the abstract and the introduction when
      the paper has them; a missing key leaves out its section and nothing else, so the
      intro is the title line alone when the paper has neither. */
  lemma IntroMdSpec(data: Paper)
    ensures Text.StartsWith(IntroMd(data), TitleLine(data))
    ensures data.abstractText.Some? ==> Text.Contains(IntroMd(data), "## Abstract\n\n" + data.abstractText.value + "\n\n")
    ensures data.introduction.Some? ==> Text.Contains(IntroMd(data), "## Introduction\n\n" + data.introduction.value + "\n\n")
    ensures data.abstractText.None? && data.introduction.None? ==> IntroMd(data) == TitleLine(data)
    ensures data.abstractText.None? ==>
              IntroMd(data) == TitleLine(data) +
                (if data.introduction.Some? then "## Introduction\n\n" + data.introduction.value + "\n\n" else "")
    ensures data.introduction.None? ==>
              IntroMd(data) == TitleLine(data) +
                (if data.abstractText.Some? then "## Abstract\n\n" + data.abstractText.value + "\n\n" else "")
  {
    var abstractMd := if data.abstractText.Some? then "## Abstract\n\n" + data.abstractText.value + "\n\n" else "";
    var introductionMd := if data.introduction.Some? then "## Introduction\n\n" + data.introduction.value + "\n\n" else "";
    Text.ContainsMiddle(TitleLine(data), abstractMd, introductionMd);
    Text.ContainsMiddle(TitleLine(data) + abstractMd, introductionMd, "");
    assert TitleLine(data) + abstractMd + introductionMd + "" == TitleLine(data) + abstractMd + introductionMd;
    assert IntroMd(data)[..|TitleLine(data)|] == TitleLine(data);
  }

  /** `build_discussion_md`: empty when the paper has no discussion. */
  function DiscussionMd(data: Paper): string {
    if data.discussion.Some? then "## Discussion\n\n" + data.discussion.value + "\n" else ""
  }

  /** The discussion block is empty exactly when the paper has no discussion; otherwise it is
      the heading followed by the discussion and a newline. */
  lemma DiscussionMdSpec(data: Paper)
    ensures DiscussionMd(data) == [] <==> data.discussion.None?
    ensures data.discussion.Some? ==>
              Text.StartsWith(DiscussionMd(data), "## Discussion\n\n") &&
              DiscussionMd(data)[|"## Discussion\n\n"|..] == data.discussion.value + "\n"
  {
  }

  /** The first line of a subsection block. */
  function SubsectionHeader(sub: Subsection): string {
    "### Subsection: " + sub.title.GetOr("Untitled Section") + "\n\n"
  }

  /** One quoted line per figure, in order. */
  function FiguresMd(figures: seq<string>): string
    decreases |figures|
  {
    if figures == [] then "" else FiguresMd(figures[..|figures| - 1]) + "> " + figures[|figures| - 1] + "\n\n"
  }

  /** `build_subsection_md`. */
  function SubsectionMd(sub: Subsection, includeFigures: bool): string {
    SubsectionHeader(sub) + sub.content.GetOr("") + "\n\n" + (if includeFigures then FiguresMd(sub.figures) else "")
  }

  /** `build_subsection_md`, appending one figure line at a time. */
  method BuildSubsectionMd(sub: Subsection, includeFigures: bool) returns (md: string)
    ensures md == SubsectionMd(sub, includeFigures)
  {
    md := SubsectionHeader(sub);
    md := md + sub.content.GetOr("") + "\n\n";
    if includeFigures {
      var figures := sub.figures;
      for i := 0 to |figures|
        invariant md == SubsectionHeader(sub) + sub.content.GetOr("") + "\n\n" + FiguresMd(figures[..i])
      {
        assert figures[..i + 1][..i] == figures[..i];
        md := md + "> " + figures[i] + "\n\n";
      }
      assert figures[..|figures|] == figures;
    }
  }

  /** Every figure's line is in the figure block, in the figures' order. */
  lemma {:induction false} FiguresMdHas(figures: seq<string>, j: nat)
    requires j < |figures|
    ensures Text.Contains(FiguresMd(figures), "> " + figures[j] + "\n\n")
    decreases |figures|
  {
    var init := figures[..|figures| - 1];
    var line := "> " + figures[|figures| - 1] + "\n\n";
    if j == |figures| - 1 {
      Text.ContainsMiddle(FiguresMd(init), line, "");
      assert FiguresMd(init) + line + "" == FiguresMd(figures);
    } else {
      FiguresMdHas(init, j);
      assert init[j] == figures[j];
      var i :| 0 <= i <= |FiguresMd(init)| && Text.StartsWith(FiguresMd(init)[i..], "> " + figures[j] + "\n\n");
      assert FiguresMd(figures)[i..] == FiguresMd(init)[i..] + line;
    }
  }

  /** A subsection block starts with its header; with figures it quotes each figure on a line
      of its own, and without them it is only the header and the content. */
  lemma SubsectionMdSpec(sub: Subsection, includeFigures: bool)
    ensures Text.StartsWith(SubsectionMd(sub, includeFigures), SubsectionHeader(sub))
    ensures !includeFigures ==> SubsectionMd(sub, includeFigures) == SubsectionHeader(sub) + sub.content.GetOr("") + "\n\n"
    ensures includeFigures ==>
              forall j :: 0 <= j < |sub.figures| ==> Text.Contains(SubsectionMd(sub, includeFigures), "> " + sub.figures[j] + "\n\n")
  {
    var head := SubsectionHeader(sub) + sub.content.GetOr("") + "\n\n";
    assert SubsectionMd(sub, includeFigures)[..|SubsectionHeader(sub)|] == SubsectionHeader(sub);
    if includeFigures {
      forall j | 0 <= j < |sub.figures| ensures Text.Contains(SubsectionMd(sub, includeFigures), "> " + sub.figures[j] + "\n\n") {
        FiguresMdHas(sub.figures, j);
        var i :| 0 <= i <= |FiguresMd(sub.figures)| && Text.StartsWith(FiguresMd(sub.figures)[i..], "> " + sub.figures[j] + "\n\n");
        assert SubsectionMd(sub, includeFigures)[|head| + i..] == FiguresMd(sub.figures)[i..];
      }
    }
  }

  /** The subsection blocks one after the other. */
  function AllSubsectionsMd(subs: seq<Subsection>, includeFigures: bool): string
    decreases |subs|
  {
    if subs == [] then "" else AllSubsectionsMd(subs[..|subs| - 1], includeFigures) + SubsectionMd(subs[|subs| - 1], includeFigures)
  }

  /** The documents of chunk mode: the intro, one subsection and the discussion each. */
  function ChunkDocuments(introText: string, subs: seq<Subsection>, includeFigures: bool, discText: string): (docs: seq<string>)
    ensures |docs| == |subs|
  {
    seq(|subs|, i requires 0 <= i < |subs| => introText + SubsectionMd(subs[i], includeFigures) + discText)
  }

  /** The single document: the intro, the results when included (headed `## Results` unless
      chunked), and the discussion. */
  function SingleDocument(introText: string, subs: seq<Subsection>, includeResult: bool, chunkSubsections: bool,
                          includeFigures: bool, discText: string): string
  {
    var resultsText := if includeResult then (if chunkSubsections then "" else "## Results\n\n") + AllSubsectionsMd(subs, includeFigures)
                       else "";
    introText + resultsText + discText
  }

  /** `generate_document`: one document per subsection when results are chunked and there
      are subsections; otherwise a single document. */
  function Documents(data: Paper, includeIntro: bool, includeResult: bool, includeDiscussion: bool,
                     chunkSubsections: bool, includeFigures: bool): seq<string>
  {
    var introText := if includeIntro then IntroMd(data) else "";
    var discText := if includeDiscussion then DiscussionMd(data) else "";
    var subs := data.subsections;
    if includeResult && chunkSubsections && subs != [] then ChunkDocuments(introText, subs, includeFigures, discText)
    else [SingleDocument(introText, subs, includeResult, chunkSubsections, includeFigures, discText)]
  }

  /** The loop of chunk mode: one document appended per subsection. */
  method BuildChunkDocuments(introText: string, subs: seq<Subsection>, includeFigures: bool, discText: string)
    returns (documents: seq<string>)
    ensures documents == ChunkDocuments(introText, subs, includeFigures, discText)
  {
    documents := [];
    for i := 0 to |subs|
      invariant documents == seq(i, j requires 0 <= j < i => introText + SubsectionMd(subs[j], includeFigures) + discText)
    {
      var docContent := introText;
      var subMd := BuildSubsectionMd(subs[i], includeFigures);
      docContent := docContent + subMd;
      docContent := docContent + discText;
      documents := documents + [docContent];
    }
  }

  /** `for sub in results_data: doc_content += build_subsection_md(sub, include_figures)`. */
  method AppendSubsections(start: string, subs: seq<Subsection>, includeFigures: bool) returns (docContent: string)
    ensures docContent == start + AllSubsectionsMd(subs, includeFigures)
  {
    docContent := start;
    for i := 0 to |subs|
      invariant docContent == start + AllSubsectionsMd(subs[..i], includeFigures)
    {
      assert subs[..i + 1][..i] == subs[..i];
      var subMd := BuildSubsectionMd(subs[i], includeFigures);
      docContent := docContent + subMd;
    }
    assert subs[..|subs|] == subs;
  }

  /** The single document, grown by appending. */
  method BuildSingleDocument(introText: string, subs: seq<Subsection>, includeResult: bool, chunkSubsections: bool,
                             includeFigures: bool, discText: string) returns (docContent: string)
    ensures docContent == SingleDocument(introText, subs, includeResult, chunkSubsections, includeFigures, discText)
  {
    docContent := introText;
    if includeResult {
      if !chunkSubsections {
        docContent := docContent + "## Results\n\n";
      }
      docContent := AppendSubsections(docContent, subs, includeFigures);
      var resultsText := (if chunkSubsections then "" else "## Results\n\n") + AllSubsectionsMd(subs, includeFigures);
      assert docContent == introText + resultsText;
    } else {
      assert docContent == introText + "";
    }
    docContent := docContent + discText;
  }

  /** `generate_document`. */
  method GenerateDocument(data: Paper, includeIntro: bool, includeResult: bool, includeDiscussion: bool,
                          chunkSubsections: bool, includeFigures: bool) returns (documents: seq<string>)
    ensures documents == Documents(data, includeIntro, includeResult, includeDiscussion, chunkSubsections, includeFigures)
  {
    var introText := if includeIntro then IntroMd(data) else "";
    var discText := if includeDiscussion then DiscussionMd(data) else "";
    var resultsData := data.subsections;
    if includeResult && chunkSubsections && resultsData != [] {
      documents := BuildChunkDocuments(introText, resultsData, includeFigures, discText);
    } else {
      var docContent := BuildSingleDocument(introText, resultsData, includeResult, chunkSubsections, includeFigures, discText);
      documents := [docContent];
    }
  }

  /** One document per subsection in chunk mode with subsections, otherwise exactly one. */
  lemma DocumentCount(data: Paper, includeIntro: bool, includeResult: bool, includeDiscussion: bool,
                      chunkSubsections: bool, includeFigures: bool)
    ensures |Documents(data, includeIntro, includeResult, includeDiscussion, chunkSubsections, includeFigures)| ==
            if includeResult && chunkSubsections && data.subsections != [] then |data.subsections| else 1
  {
  }

  /** Every document starts with the intro (empty without `include_intro`) and ends with the
      discussion (empty without `include_discussion` or without a discussion). */
  lemma DocumentsFrame(data: Paper, includeIntro: bool, includeResult: bool, includeDiscussion: bool,
                       chunkSubsections: bool, includeFigures: bool)
    ensures var docs := Documents(data, includeIntro, includeResult, includeDiscussion, chunkSubsections, includeFigures);
            var introText := if includeIntro then IntroMd(data) else "";
            var discText := if includeDiscussion then DiscussionMd(data) else "";
            forall i :: 0 <= i < |docs| ==>
              |introText| + |discText| <= |docs[i]| &&
              docs[i][..|introText|] == introText && docs[i][|docs[i]| - |discText|..] == discText
  {
    var docs := Documents(data, includeIntro, includeResult, includeDiscussion, chunkSubsections, includeFigures);
    var introText := if includeIntro then IntroMd(data) else "";
    var discText := if includeDiscussion then DiscussionMd(data) else "";
    var subs := data.subsections;
    if includeResult && chunkSubsections && subs != [] {
      ChunkFrame(introText, subs, includeFigures, discText);
    } else {
      var resultsText := if includeResult then (if chunkSubsections then "" else "## Results\n\n") + AllSubsectionsMd(subs, includeFigures)
                         else "";
      Framed(introText, resultsText, discText);
    }
  }

  /** Every chunk document is framed by the intro and the discussion. */
  lemma ChunkFrame(introText: string, subs: seq<Subsection>, includeFigures: bool, discText: string)
    ensures var docs := ChunkDocuments(introText, subs, includeFigures, discText);
            forall i :: 0 <= i < |docs| ==>
              |introText| + |discText| <= |docs[i]| &&
              docs[i][..|introText|] == introText && docs[i][|docs[i]| - |discText|..] == discText
  {
    var docs := ChunkDocuments(introText, subs, includeFigures, discText);
    forall i | 0 <= i < |docs|
      ensures |introText| + |discText| <= |docs[i]| &&
              docs[i][..|introText|] == introText && docs[i][|docs[i]| - |discText|..] == discText
    {
      Framed(introText, SubsectionMd(subs[i], includeFigures), discText);
    }
  }

  /** `a + m + b` starts with `a` and ends with `b`. */
  lemma Framed(a: string, m: string, b: string)
    ensures |a| + |b| <= |a + m + b|
    ensures (a + m + b)[..|a|] == a && (a + m + b)[|a + m + b| - |b|..] == b
  {
  }

  /** In chunk mode, document `i` is the intro, subsection `i` and the discussion, and it
      starts with that subsection's header right after the intro. */
  lemma ChunkDocumentShape(data: Paper, includeIntro: bool, includeDiscussion: bool, includeFigures: bool, i: nat)
    requires i < |data.subsections|
    ensures var docs := Documents(data, includeIntro, true, includeDiscussion, true, includeFigures);
            var introText := if includeIntro then IntroMd(data) else "";
            var discText := if includeDiscussion then DiscussionMd(data) else "";
            var header := SubsectionHeader(data.subsections[i]);
            docs[i] == introText + SubsectionMd(data.subsections[i], includeFigures) + discText &&
            |introText| + |header| <= |docs[i]| && docs[i][|introText|..|introText| + |header|] == header
  {
    var introText := if includeIntro then IntroMd(data) else "";
    var discText := if includeDiscussion then DiscussionMd(data) else "";
    var sub := data.subsections[i];
    SubsectionMdSpec(sub, includeFigures);
    HeaderAfter(introText, SubsectionMd(sub, includeFigures), discText, SubsectionHeader(sub));
  }

  /** When `m` starts with `h`, so does what follows `a` in `a + m + b`. */
  lemma HeaderAfter(a: string, m: string, b: string, h: string)
    requires Text.StartsWith(m, h)
    ensures |a| + |h| <= |a + m + b| && (a + m + b)[|a|..|a| + |h|] == h
  {
    assert (a + m + b)[|a|..|a| + |h|] == m[..|h|];
  }

  /** `## Results` follows the intro in the single document exactly when results are included
      and not chunked; in chunk mode without subsections, and without results, the document
      is the intro and the discussion alone. */
  lemma ResultsHeader(data: Paper, includeIntro: bool, includeResult: bool, includeDiscussion: bool,
                      chunkSubsections: bool, includeFigures: bool)
    ensures var docs := Documents(data, includeIntro, includeResult, includeDiscussion, chunkSubsections, includeFigures);
            var introText := if includeIntro then IntroMd(data) else "";
            var discText := if includeDiscussion then DiscussionMd(data) else "";
            (includeResult && !chunkSubsections ==>
               docs == [introText + "## Results\n\n" + AllSubsectionsMd(data.subsections, includeFigures) + discText]) &&
            (!includeResult || (chunkSubsections && data.subsections == []) ==> docs == [introText + discText])
  {
    var introText := if includeIntro then IntroMd(data) else "";
    var discText := if includeDiscussion then DiscussionMd(data) else "";
    assert introText + "" + discText == introText + discText;
    assert introText + ("" + AllSubsectionsMd([], includeFigures)) + discText == introText + discText;
    var all := AllSubsectionsMd(data.subsections, includeFigures);
    assert introText + ("## Results\n\n" + all) + discText == introText + "## Results\n\n" + all + discText;
  }
}
