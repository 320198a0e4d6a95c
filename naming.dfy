/**
 * Names the service derives from the key of the uploaded document:
 * the output name `os.path.splitext(file)[0] + "tabular.csv"`, the local
 * path `flattened_dir + '/' + name` and the upload key `'flattened/' + name`.
 *
 * `SplitExt` follows POSIX `os.path.splitext`: the extension starts at the
 * last '.', provided no '/' follows that dot and the final path component
 * has some character other than '.' before it (so ".profile" has none).
 */
module Naming {

  /** Where CSV files are written locally. */
  const FlattenedDir: string := "/hl7/flattened"

  /** Prefix of the key under which a CSV file is uploaded. */
  const UploadPrefix: string := "flattened/"

  /** Appended to the name without its extension. */
  const OutputSuffix: string := "tabular.csv"

  /** Python's `p.rfind(c)`: the last position of `c`, or -1. */
  function RFind(p: string, c: char): (r: int)
    ensures -1 <= r < |p|
    ensures r >= 0 ==> p[r] == c
    ensures forall j :: r < j < |p| ==> p[j] != c
  {
    if p == [] then -1
    else if p[|p| - 1] == c then |p| - 1
    else RFind(p[..|p| - 1], c)
  }

  /** `os.path.splitext(p)`: (root, extension). */
  function SplitExt(p: string): (string, string) {
    var sepIndex := RFind(p, '/');
    var dotIndex := RFind(p, '.');
    if dotIndex > sepIndex && exists j :: sepIndex + 1 <= j < dotIndex && p[j] != '.' then
      (p[..dotIndex], p[dotIndex..])
    else
      (p, "")
  }

  /**
   * Position `d` starts an extension of `p`: it holds the last '.', no '/'
   * follows it, and the final path component has a character other than '.'
   * before it.
   */
  ghost predicate ExtensionAt(p: string, d: int) {
    && 0 <= d < |p| && p[d] == '.'
    && (forall j :: d < j < |p| ==> p[j] != '.' && p[j] != '/')
    && (exists j :: 0 <= j < d && p[j] != '.' && forall t :: j <= t < d ==> p[t] != '/')
  }

  lemma SplitExtSpec(p: string)
    ensures SplitExt(p).0 + SplitExt(p).1 == p
    ensures forall j :: 0 <= j < |SplitExt(p).1| ==> SplitExt(p).1[j] != '/'
    ensures forall d :: ExtensionAt(p, d) ==> SplitExt(p) == (p[..d], p[d..])
    ensures (forall d :: !ExtensionAt(p, d)) ==> SplitExt(p) == (p, "")
  {
    var sepIndex := RFind(p, '/');
    var dotIndex := RFind(p, '.');
    forall d | ExtensionAt(p, d) ensures SplitExt(p) == (p[..d], p[d..]) {
      assert dotIndex == d;
      var j :| 0 <= j < d && p[j] != '.' && forall t :: j <= t < d ==> p[t] != '/';
      assert sepIndex < j;
    }
    if dotIndex > sepIndex && exists j :: sepIndex + 1 <= j < dotIndex && p[j] != '.' {
      var j :| sepIndex + 1 <= j < dotIndex && p[j] != '.';
      assert ExtensionAt(p, dotIndex);
    }
  }

  /** The name of the CSV file made from the document `file`. */
  function OutputName(file: string): string {
    SplitExt(file).0 + OutputSuffix
  }

  /** The local path the CSV file is written to and uploaded from. */
  function CsvPath(outFileName: string): string {
    FlattenedDir + "/" + outFileName
  }

  /** The key the CSV file is uploaded under. */
  function UploadKey(outFileName: string): string {
    UploadPrefix + outFileName
  }

  /**
   * The output name is the document name with its extension (if it has one)
   * removed, followed by "tabular.csv".
   */
  lemma OutputNameSpec(file: string)
    ensures forall d :: ExtensionAt(file, d) ==> OutputName(file) == file[..d] + OutputSuffix
    ensures (forall d :: !ExtensionAt(file, d)) ==> OutputName(file) == file + OutputSuffix
  {
    SplitExtSpec(file);
  }

  /** "bundle.json" becomes "bundletabular.csv". */
  lemma OutputNameExample()
    ensures OutputName("bundle.json") == "bundletabular.csv"
  {
    var p := "bundle.json";
    assert ExtensionAt(p, 6) by {
      assert p[0] != '.' && forall t :: 0 <= t < 6 ==> p[t] != '/';
    }
    OutputNameSpec(p);
    assert p[..6] == "bundle";
  }

  /** Only the last extension goes: "a.tar.gz" becomes "a.tartabular.csv". */
  lemma OutputNameLastExtension()
    ensures OutputName("a.tar.gz") == "a.tartabular.csv"
  {
    var p := "a.tar.gz";
    assert ExtensionAt(p, 5) by {
      assert p[0] != '.' && forall t :: 0 <= t < 5 ==> p[t] != '/';
    }
    OutputNameSpec(p);
    assert p[..5] == "a.tar";
  }

  /** A name that is all leading dots has no extension: ".json" becomes ".jsontabular.csv". */
  lemma OutputNameHiddenFile()
    ensures OutputName(".json") == ".jsontabular.csv"
  {
    var p := ".json";
    forall d ensures !ExtensionAt(p, d) {
    }
    OutputNameSpec(p);
  }

  /** A dot in a directory name is not an extension: the whole name is kept. */
  lemma DirectoryDotKept(p: string, s: int)
    requires 0 <= s < |p| && p[s] == '/'
    requires forall j :: s < j < |p| ==> p[j] != '.'
    ensures forall d :: !ExtensionAt(p, d)
    ensures OutputName(p) == p + OutputSuffix
  {
    forall d | 0 <= d < |p| && p[d] == '.'
      ensures !ExtensionAt(p, d)
    {
      assert d < s;
    }
    OutputNameSpec(p);
  }

  /** "v1.2/bundle" becomes "v1.2/bundletabular.csv". */
  lemma OutputNameDottedDirectory()
    ensures OutputName("v1.2/bundle") == "v1.2/bundletabular.csv"
  {
    var p := "v1.2/bundle";
    assert p[4] == '/';
    DirectoryDotKept(p, 4);
  }

  /** The number of '/' characters in a path. */
  function Slashes(s: string): nat {
    if s == [] then 0 else (if s[0] == '/' then 1 else 0) + Slashes(s[1..])
  }

  lemma {:induction false} SlashesAppend(a: string, b: string)
    ensures Slashes(a + b) == Slashes(a) + Slashes(b)
  {
    if a == [] {
      assert a + b == b;
    } else {
      assert (a + b)[1..] == a[1..] + b;
      SlashesAppend(a[1..], b);
    }
  }

  lemma {:induction false} NoSlashes(s: string)
    requires forall j :: 0 <= j < |s| ==> s[j] != '/'
    ensures Slashes(s) == 0
  {
    if s != [] {
      NoSlashes(s[1..]);
    }
  }

  /** The local output directory, with its separator, holds three '/'. */
  lemma DirectorySlashes()
    ensures Slashes(FlattenedDir + "/") == 3
  {
    var a, b := "hl7", "flattened";
    assert FlattenedDir + "/" == "/" + a + "/" + b + "/";
    NoSlashes(a);
    NoSlashes(b);
    SlashesAppend("/", a);
    SlashesAppend("/" + a, "/");
    SlashesAppend("/" + a + "/", b);
    SlashesAppend("/" + a + "/" + b, "/");
  }

  /** Deriving the output name neither adds nor removes a '/'. */
  lemma OutputNameSlashes(file: string)
    ensures Slashes(OutputName(file)) == Slashes(file)
  {
    SplitExtSpec(file);
    var (root, ext) := SplitExt(file);
    NoSlashes(ext);
    SlashesAppend(root, ext);
    NoSlashes(OutputSuffix);
    SlashesAppend(root, OutputSuffix);
  }

  /**
   * The local CSV path never coincides with the downloaded document: it has
   * three more '/' characters.
   */
  lemma CsvPathIsNotDocument(file: string)
    ensures CsvPath(OutputName(file)) != file
  {
    DirectorySlashes();
    OutputNameSlashes(file);
    SlashesAppend(FlattenedDir + "/", OutputName(file));
  }

  /** The file name can be recovered from the local path and from the upload key. */
  lemma PathsDetermineName(outFileName: string)
    ensures CsvPath(outFileName)[..|FlattenedDir| + 1] == FlattenedDir + "/"
    ensures CsvPath(outFileName)[|FlattenedDir| + 1..] == outFileName
    ensures UploadKey(outFileName)[..|UploadPrefix|] == UploadPrefix
    ensures UploadKey(outFileName)[|UploadPrefix|..] == outFileName
  {
  }
}
