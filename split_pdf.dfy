/** src/utils/split_pdf.py: copying chosen pages of a PDF into a new one. The pages are
    checked against the page count, added in ascending order, and the output is named after
    the input and the pages unless a name is given; the command line chooses the pages as a
    list or as an inclusive slice.

    PyPDF2 is not part of this model. Opening the input is given as its outcome (the page
    count, or a failure), and writing the output as whether it succeeds. The writer is the
    object the pages are added to, recorded by the reader indices it received. */
module SplitPdf {
  import opened Wrappers
  import opened Seqs
  import opened Sorting
  import Paths
  import Text

  /** What opening the input gives: its page count, or an exception. */
  datatype Reader = Opened(total: nat) | OpenFailed

  /** The PDF written: its file name and the 0-based indices of the input pages it holds, in
      order. */
  datatype OutputPdf = OutputPdf(name: string, indices: seq<nat>)

  /** `PdfWriter`, as far as this script uses it: the pages added, in order. */
  class PageWriter {
    var indices: seq<nat>

    constructor()
      ensures indices == []
    {
      indices := [];
    }

    /** `writer.add_page(reader.pages[index])`. */
    method AddPage(index: nat)
      modifies this
      ensures indices == old(indices) + [index]
    {
      indices := indices + [index];
    }
  }

  /** A page number outside 1..total. */
  function OutOfRange(total: nat): int -> bool {
    p => p < 1 || p > total
  }

  /** `invalid_pages`: the requested pages outside 1..total, in request order. */
  function InvalidPages(pages: seq<int>, total: nat): seq<int> {
    Filter(pages, OutOfRange(total))
  }

  /** `sorted(pages)`. */
  function SortedPages(pages: seq<int>): seq<int> {
    SortBy(pages, IntLe)
  }

  /** The reader index of each page: page `p` is index `p - 1`. */
  function ReaderIndices(pages: seq<int>): seq<nat>
    requires forall i :: 0 <= i < |pages| ==> pages[i] >= 1
  {
    seq(|pages|, i requires 0 <= i < |pages| => pages[i] - 1)
  }

  /** `f"{stem}_pages_{'_'.join(map(str, sorted(pages)))}{suffix}"`. */
  function DefaultName(inputFile: string, pages: seq<int>): string {
    Paths.Stem(inputFile) + "_pages_" + Text.Join(PageNames(SortedPages(pages)), "_") + Paths.Suffix(inputFile)
  }

  /** `map(str, q)`: each page number in decimal. */
  function PageNames(q: seq<int>): seq<string> {
    seq(|q|, i requires 0 <= i < |q| => Text.IntToString(q[i]))
  }

  /** The output name: the one given, unless it is missing or empty. */
  function OutputName(inputFile: string, pages: seq<int>, outputFile: Option<string>): string {
    if outputFile.Some? && outputFile.value != "" then outputFile.value else DefaultName(inputFile, pages)
  }

  /** Every page of an empty `InvalidPages` lies in 1..total. */
  lemma NoInvalidPages(pages: seq<int>, total: nat)
    ensures InvalidPages(pages, total) == [] <==> forall i :: 0 <= i < |pages| ==> 1 <= pages[i] <= total
  {
    if forall i :: 0 <= i < |pages| ==> 1 <= pages[i] <= total {
      FilterNone(pages, OutOfRange(total));
    } else {
      var i :| 0 <= i < |pages| && !(1 <= pages[i] <= total);
      FilterKeeps(pages, OutOfRange(total), pages[i]);
    }
  }

  /** Sorting keeps every page in 1..total. */
  lemma SortedInRange(pages: seq<int>, total: nat)
    requires forall i :: 0 <= i < |pages| ==> 1 <= pages[i] <= total
    ensures forall i :: 0 <= i < |SortedPages(pages)| ==> 1 <= SortedPages(pages)[i] <= total
  {
    IntLeTotalPreorder();
    SortBySpec(pages, IntLe);
    forall i | 0 <= i < |SortedPages(pages)| ensures 1 <= SortedPages(pages)[i] <= total {
      assert SortedPages(pages)[i] in multiset(pages);
    }
  }

  /** `extract_pages` up to its messages: the PDF it writes, if any. It returns True exactly
      when it writes one. */
  function Extract(inputFile: string, pages: seq<int>, outputFile: Option<string>, reader: Reader, writeOk: bool): Option<OutputPdf> {
    match reader
    case OpenFailed => None
    case Opened(total) =>
      if InvalidPages(pages, total) != [] || !writeOk then None
      else
        NoInvalidPages(pages, total);
        SortedInRange(pages, total);
        Some(OutputPdf(OutputName(inputFile, pages, outputFile), ReaderIndices(SortedPages(pages))))
  }

  /** The 1-based page number of each reader index. */
  function PageNumbers(indices: seq<nat>): seq<int> {
    seq(|indices|, i requires 0 <= i < |indices| => indices[i] + 1)
  }

  /** A request is written exactly when the output can be written and every page lies in
      1..total. */
  lemma ExtractWritten(inputFile: string, pages: seq<int>, outputFile: Option<string>, total: nat, writeOk: bool)
    ensures Extract(inputFile, pages, outputFile, Opened(total), writeOk).Some? <==>
            writeOk && forall i :: 0 <= i < |pages| ==> 1 <= pages[i] <= total
  {
    NoInvalidPages(pages, total);
  }

  /** The output holds the requested pages in ascending order, duplicates kept, page `p` as
      reader index `p - 1`, every index below the page count, under the name `OutputName`
      gives. */
  lemma ExtractContents(inputFile: string, pages: seq<int>, outputFile: Option<string>, total: nat, writeOk: bool)
    requires Extract(inputFile, pages, outputFile, Opened(total), writeOk).Some?
    ensures var out := Extract(inputFile, pages, outputFile, Opened(total), writeOk).value;
            out.name == OutputName(inputFile, pages, outputFile) &&
            multiset(PageNumbers(out.indices)) == multiset(pages) &&
            (forall i, j :: 0 <= i < j < |out.indices| ==> out.indices[i] <= out.indices[j]) &&
            (forall i :: 0 <= i < |out.indices| ==> out.indices[i] < total)
  {
    NoInvalidPages(pages, total);
    SortedInRange(pages, total);
    var sorted := SortedPages(pages);
    var indices := ReaderIndices(sorted);
    assert PageNumbers(indices) == sorted;
    IntLeTotalPreorder();
    SortBySpec(pages, IntLe);
    forall i, j | 0 <= i < j < |indices| ensures indices[i] <= indices[j] {
      assert IntLe(sorted[i], sorted[j]);
    }
  }

  /** The output name is the one given when it is non-empty, and otherwise the input's stem,
      `_pages_`, the ascending page numbers joined by `_`, and the input's suffix. */
  lemma OutputNameSpec(inputFile: string, pages: seq<int>, outputFile: Option<string>)
    ensures outputFile.Some? && outputFile.value != "" ==> OutputName(inputFile, pages, outputFile) == outputFile.value
    ensures outputFile.None? || outputFile.value == "" ==>
              Text.StartsWith(OutputName(inputFile, pages, outputFile), Paths.Stem(inputFile) + "_pages_")
    ensures Sorted(SortedPages(pages), IntLe) && multiset(SortedPages(pages)) == multiset(pages)
    ensures forall q :: Sorted(q, IntLe) && multiset(q) == multiset(pages) && (outputFile.None? || outputFile.value == "") ==>
              OutputName(inputFile, pages, outputFile) ==
              Paths.Stem(inputFile) + "_pages_" + Text.Join(PageNames(q), "_") + Paths.Suffix(inputFile)
  {
    IntLeTotalPreorder();
    SortBySpec(pages, IntLe);
    forall q | Sorted(q, IntLe) && multiset(q) == multiset(pages) && (outputFile.None? || outputFile.value == "")
      ensures OutputName(inputFile, pages, outputFile) ==
              Paths.Stem(inputFile) + "_pages_" + Text.Join(PageNames(q), "_") + Paths.Suffix(inputFile)
    {
      SortedIntsUnique(q, SortedPages(pages));
    }
  }

  /** `extract_pages`: the pages validated, a writer filled in ascending page order, then
      the output written; True exactly when the output is written. */
  method ExtractPages(inputFile: string, pages: seq<int>, outputFile: Option<string>, reader: Reader, writeOk: bool)
    returns (success: bool, written: Option<OutputPdf>)
    ensures written == Extract(inputFile, pages, outputFile, reader, writeOk)
    ensures success <==> written.Some?
  {
    if reader.OpenFailed? {
      return false, None;
    }
    var total := reader.total;
    var invalidPages := InvalidPages(pages, total);
    if invalidPages != [] {
      return false, None;
    }
    NoInvalidPages(pages, total);
    SortedInRange(pages, total);
    var writer := new PageWriter();
    var sorted := SortedPages(pages);
    for i := 0 to |sorted|
      invariant writer.indices == ReaderIndices(sorted[..i])
    {
      writer.AddPage(sorted[i] - 1);
    }
    assert sorted[..|sorted|] == sorted;
    var name := OutputName(inputFile, pages, outputFile);
    if !writeOk {
      return false, None;
    }
    return true, Some(OutputPdf(name, writer.indices));
  }

  // ---------------------------------------------------------------------------------------
  // Command line
  // ---------------------------------------------------------------------------------------

  /** `--pages P...` or `--slice START END`, exactly one of which is given. */
  datatype Selection = Pages(list: seq<int>) | Slice(start: int, end: int)

  /** The pages the command line asks for: the list as given, or the inclusive slice; a
      slice that starts after it ends is refused. */
  function SelectedPages(selection: Selection): Result<seq<int>, string> {
    match selection
    case Pages(list) => Ok(list)
    case Slice(start, end) =>
      if start > end then
        Err("Error: Start page (" + Text.IntToString(start) + ") must be less than or equal to end page (" + Text.IntToString(end) + ")")
      else
        Ok(seq(end - start + 1, i requires 0 <= i < end - start + 1 => start + i))
  }

  /** A slice with start <= end is every page from start to end, once each, in order. */
  lemma SliceSpec(start: int, end: int)
    ensures SelectedPages(Slice(start, end)).Ok? <==> start <= end
    ensures start <= end ==>
              var pages := SelectedPages(Slice(start, end)).value;
              |pages| == end - start + 1 && pages[0] == start && pages[|pages| - 1] == end &&
              forall i :: 0 <= i < |pages| - 1 ==> pages[i + 1] == pages[i] + 1
  {
  }

  /** `main`'s exit status: 1 for a missing input or a refused slice, otherwise 0 exactly
      when the pages are written. */
  function ExitStatus(inputExists: bool, inputFile: string, selection: Selection, outputFile: Option<string>,
                      reader: Reader, writeOk: bool): int
  {
    if !inputExists then 1
    else match SelectedPages(selection)
      case Err(_) => 1
      case Ok(pages) => if Extract(inputFile, pages, outputFile, reader, writeOk).Some? then 0 else 1
  }

  /** A slice whose start exceeds its end never reaches `extract_pages`. */
  lemma ReversedSliceFails(inputExists: bool, inputFile: string, start: int, end: int, outputFile: Option<string>,
                           reader: Reader, writeOk: bool)
    requires start > end
    ensures ExitStatus(inputExists, inputFile, Slice(start, end), outputFile, reader, writeOk) == 1
  {
  }
}
