/** The path arithmetic the scripts rely on: `os.path.splitext` for the statistics file and
    `pathlib.PurePosixPath(p).name`, `.stem` and `.suffix` for derived file names (POSIX
    separators, as pathlib behaves in Python 3.12). */
module Paths {

  /** `s.rfind(c)`: the last position of `c` in `s`, or -1. */
  function LastIndexOf(s: string, c: char): (r: int)
    ensures -1 <= r < |s|
    ensures r >= 0 ==> s[r] == c
    ensures forall j :: r < j < |s| ==> s[j] != c
  {
    if s == [] then -1
    else if s[|s| - 1] == c then |s| - 1
    else LastIndexOf(s[..|s| - 1], c)
  }

  /** Some character strictly between positions `lo` and `hi` of `s` is not a dot. */
  predicate HasNonDotBetween(s: string, lo: int, hi: int)
    requires -1 <= lo && hi <= |s|
  {
    exists k :: lo < k < hi && s[k] != '.'
  }

  /** Empty, or a dot followed by characters that are neither dots nor separators. */
  predicate IsExtension(e: string) {
    e == [] || (e[0] == '.' && forall j :: 0 < j < |e| ==> e[j] != '.' && e[j] != '/')
  }

  /** `os.path.splitext(p)`: the extension is the part from the last dot of the last path
      component, unless that component holds only dots before it (a leading-dot name such as
      `.bashrc` has no extension). */
  function SplitExt(p: string): (r: (string, string))
    ensures r.0 + r.1 == p
    ensures IsExtension(r.1)
  {
    var sep := LastIndexOf(p, '/');
    var dot := LastIndexOf(p, '.');
    if dot > sep && HasNonDotBetween(p, sep, dot) then
      assert p[..dot] + p[dot..] == p;
      (p[..dot], p[dot..])
    else (p, "")
  }

  /** The statistics file of a run: the input path without its extension, plus `_stats.json`. */
  function StatsPath(inputPath: string): string {
    SplitExt(inputPath).0 + "_stats.json"
  }

  /** The statistics path is a prefix of the input path followed by `_stats.json`, and what
      it leaves out of the input path is an extension. */
  lemma StatsPathSpec(inputPath: string)
    ensures var r := StatsPath(inputPath);
            var root := r[..|r| - |"_stats.json"|];
            r == root + "_stats.json" && |root| <= |inputPath| &&
            inputPath[..|root|] == root && IsExtension(inputPath[|root|..])
  {
    var (root, ext) := SplitExt(inputPath);
    assert inputPath[|root|..] == ext;
  }

  /** The last path component, as `PurePosixPath(p).name` gives it (trailing slashes ignored). */
  function Name(p: string): (r: string)
    ensures forall j :: 0 <= j < |r| ==> r[j] != '/'
    decreases |p|
  {
    if p != [] && p[|p| - 1] == '/' then Name(p[..|p| - 1])
    else p[LastIndexOf(p, '/') + 1..]
  }

  /** `PurePosixPath(p).suffix`: from the last dot of the name, if that dot is neither the first
      nor the last character of the name. */
  function Suffix(p: string): (r: string)
    ensures r == [] || (r[0] == '.' && |r| >= 2 && forall j :: 0 < j < |r| ==> r[j] != '.')
  {
    var name := Name(p);
    var i := LastIndexOf(name, '.');
    if 0 < i < |name| - 1 then name[i..] else ""
  }

  /** `PurePosixPath(p).stem`: the name without its suffix. */
  function Stem(p: string): string {
    var name := Name(p);
    var i := LastIndexOf(name, '.');
    if 0 < i < |name| - 1 then name[..i] else name
  }

  /** The stem and the suffix put back together give the name. */
  lemma StemSuffix(p: string)
    ensures Stem(p) + Suffix(p) == Name(p)
  {
    var name := Name(p);
    var i := LastIndexOf(name, '.');
    if 0 < i < |name| - 1 {
      assert name[..i] + name[i..] == name;
    }
  }
}
