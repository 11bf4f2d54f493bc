/** `read_jsonl` in src/utils/common.py: lenient reading of a JSON Lines file.

    The file is given as its lines (with or without their line ends) and `json.loads` as the
    function `decode`, which yields `None` where Python raises JSONDecodeError. */
module Common {
  import opened Wrappers
  import opened Json
  import Text

  /** What one line contributes: its decoded value, or nothing when it does not decode. */
  function LineValues(line: string, decode: string -> Option<Value>): seq<Value> {
    match decode(Text.Strip(line))
    case Some(v) => [v]
    case None => []
  }

  /** The values read from `lines`, in line order, skipping the lines that do not decode. */
  function Decoded(lines: seq<string>, decode: string -> Option<Value>): seq<Value>
    decreases |lines|
  {
    if lines == [] then []
    else Decoded(lines[..|lines| - 1], decode) + LineValues(lines[|lines| - 1], decode)
  }

  /** The loop of `read_jsonl`: each stripped line is decoded; a decode error is reported and
      the line skipped, so the result is exactly Decoded(lines, decode). */
  method ReadJsonl(lines: seq<string>, decode: string -> Option<Value>) returns (data: seq<Value>)
    ensures data == Decoded(lines, decode)
  {
    data := [];
    var i := 0;
    while i < |lines|
      invariant 0 <= i <= |lines|
      invariant data == Decoded(lines[..i], decode)
    {
      assert lines[..i + 1][..i] == lines[..i];
      var decodedLine := decode(Text.Strip(lines[i]));
      if decodedLine.Some? {
        data := data + [decodedLine.value];
      }
      i := i + 1;
    }
    assert lines[..|lines|] == lines;
  }

  /** Reading two stretches of lines one after the other gives the values of the first stretch
      followed by those of the second: the input order is kept. */
  lemma {:induction false} DecodedAppend(a: seq<string>, b: seq<string>, decode: string -> Option<Value>)
    ensures Decoded(a + b, decode) == Decoded(a, decode) + Decoded(b, decode)
    decreases |b|
  {
    if b == [] {
      assert a + b == a;
    } else {
      var b' := b[..|b| - 1];
      assert (a + b)[..|a + b| - 1] == a + b';
      assert (a + b)[|a + b| - 1] == b[|b| - 1];
      DecodedAppend(a, b', decode);
    }
  }

  /** Whether a line decodes once stripped. */
  predicate Decodes(line: string, decode: string -> Option<Value>) {
    decode(Text.Strip(line)).Some?
  }

  /** At most one value comes out per line, and fewer than one per line as soon as some line
      does not decode. */
  lemma {:induction false} DecodedLength(lines: seq<string>, decode: string -> Option<Value>)
    ensures |Decoded(lines, decode)| <= |lines|
    ensures |Decoded(lines, decode)| == |lines| <==> forall i :: 0 <= i < |lines| ==> Decodes(lines[i], decode)
    decreases |lines|
  {
    if lines != [] {
      var init := lines[..|lines| - 1];
      var last := lines[|lines| - 1];
      DecodedLength(init, decode);
      assert |LineValues(last, decode)| == if Decodes(last, decode) then 1 else 0;
      assert forall i :: 0 <= i < |init| ==> init[i] == lines[i];
      if forall i :: 0 <= i < |lines| ==> Decodes(lines[i], decode) {
        assert forall i :: 0 <= i < |init| ==> Decodes(init[i], decode);
      }
    }
  }

  /** The decoding of one line that is known to decode. */
  function DecodedValue(line: string, decode: string -> Option<Value>): Value
    requires Decodes(line, decode)
  {
    decode(Text.Strip(line)).value
  }

  /** When every line decodes, the result holds one value per line: the i-th value is the
      decoding of the i-th line. */
  lemma {:induction false} DecodedAllLines(lines: seq<string>, decode: string -> Option<Value>)
    requires forall j :: 0 <= j < |lines| ==> Decodes(lines[j], decode)
    ensures Decoded(lines, decode) == seq(|lines|, j requires 0 <= j < |lines| => DecodedValue(lines[j], decode))
    decreases |lines|
  {
    if lines != [] {
      var init := lines[..|lines| - 1];
      var last := lines[|lines| - 1];
      forall j | 0 <= j < |init| ensures Decodes(init[j], decode) {
        assert init[j] == lines[j];
      }
      DecodedAllLines(init, decode);
      var prev := Decoded(init, decode);
      assert LineValues(last, decode) == [DecodedValue(last, decode)];
      assert Decoded(lines, decode) == prev + [DecodedValue(last, decode)];
      forall j | 0 <= j < |lines|
        ensures (prev + [DecodedValue(last, decode)])[j] == DecodedValue(lines[j], decode)
      {
        if j < |init| {
          assert prev[j] == DecodedValue(init[j], decode);
          assert init[j] == lines[j];
        }
      }
    }
  }

  /** A blank line never decodes (json.loads rejects the empty string), so it contributes
      nothing wherever it stands. */
  lemma BlankLineSkipped(a: seq<string>, line: string, b: seq<string>, decode: string -> Option<Value>)
    requires decode("").None?
    requires Text.IsBlank(line)
    ensures Decoded(a + [line] + b, decode) == Decoded(a + b, decode)
  {
    Text.StripEmptyIffBlank(line);
    assert LineValues(line, decode) == [];
    assert [line][..0] == [];
    assert Decoded([line], decode) == [];
    DecodedAppend(a + [line], b, decode);
    DecodedAppend(a, [line], decode);
    DecodedAppend(a, b, decode);
  }
}
