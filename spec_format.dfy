/**
 * Choosing a parser from the spec file's extension (`parseByExt`), with
 * Node's `path.extname` for POSIX paths.
 */
module SpecFormat {
  import opened Wrappers
  import opened JsValue
  import opened Failures

  datatype Format = Yaml | Toml | Jsonc | Json

  /** The extension each parser is chosen for. */
  function ExtensionOf(f: Format): string {
    match f
    case Yaml => ".yaml"
    case Toml => ".toml"
    case Jsonc => ".jsonc"
    case Json => ".json"
  }

  const SupportedExtensions: set<string> := {".yaml", ".toml", ".jsonc", ".json"}

  /** The index of the last `c` in `s`. */
  function LastIndexOf(s: string, c: char): (r: Option<nat>)
    ensures r.Some? ==> r.value < |s| && s[r.value] == c
    ensures r.Some? ==> forall j :: r.value < j < |s| ==> s[j] != c
    ensures r.None? ==> forall j :: 0 <= j < |s| ==> s[j] != c
    decreases |s|
  {
    if s == [] then None
    else if s[|s| - 1] == c then Some(|s| - 1)
    else LastIndexOf(s[..|s| - 1], c)
  }

  /** The last path segment. Trailing separators are not stripped. */
  function BaseName(p: string): (b: string)
    ensures |b| <= |p| && b == p[|p| - |b|..]
    ensures forall j :: 0 <= j < |b| ==> b[j] != '/'
  {
    match LastIndexOf(p, '/')
    case None => p
    case Some(i) => p[i + 1..]
  }

  /**
   * `path.extname`: from the last dot of the last segment to its end; empty
   * when that segment has no dot, starts with its only dot, or is "..".
   */
  function ExtName(p: string): (r: string)
    ensures r != "" ==> r[0] == '.' && |r| <= |p| && r == p[|p| - |r|..]
    ensures forall j :: 0 <= j < |r| ==> r[j] != '/'
    ensures forall j :: 0 < j < |r| ==> r[j] != '.'
  {
    var b := BaseName(p);
    if b == ".." then ""
    else match LastIndexOf(b, '.')
      case None => ""
      case Some(d) => if d == 0 then "" else b[d..]
  }

  /** The `switch (ext)` of `parseByExt`. */
  function FormatOf(ext: string): (r: Result<Format, Failure>)
    ensures r.Ok? <==> ext in SupportedExtensions
    ensures r.Ok? ==> ExtensionOf(r.value) == ext
    ensures r.Err? ==> r.error == UnsupportedExtension(ext)
  {
    match ext
    case ".yaml" => Ok(Yaml)
    case ".toml" => Ok(Toml)
    case ".jsonc" => Ok(Jsonc)
    case ".json" => Ok(Json)
    case _ => Err(UnsupportedExtension(ext))
  }

  /** Dispatch and naming agree: every parser is chosen for its own extension and no other. */
  lemma FormatOfExtensionOf(f: Format, ext: string)
    ensures FormatOf(ExtensionOf(f)) == Ok(f)
    ensures FormatOf(ext) == Ok(f) <==> ext == ExtensionOf(f)
  {
  }

  /**
   * `parseByExt`: the file is read first, then the extension picks the
   * parser. `files` holds the readable files and their contents; `parse`
   * stands for the four parsing libraries.
   */
  function ParseByExt(
    filePath: string,
    files: map<string, string>,
    parse: (Format, string) -> Result<map<string, Value>, string>
  ): (r: Result<map<string, Value>, Failure>)
    ensures filePath !in files ==> r == Err(ReadFailed(filePath))
    ensures filePath in files && ExtName(filePath) !in SupportedExtensions ==>
      r == Err(UnsupportedExtension(ExtName(filePath)))
    ensures r.Ok? ==> filePath in files && ExtName(filePath) in SupportedExtensions
    ensures r.Ok? ==> parse(FormatOf(ExtName(filePath)).value, files[filePath]) == Ok(r.value)
    ensures filePath in files && ExtName(filePath) in SupportedExtensions ==>
      var parsed := parse(FormatOf(ExtName(filePath)).value, files[filePath]);
      && (parsed.Ok? ==> r == Ok(parsed.value))
      && (parsed.Err? ==> r == Err(ParseFailed(parsed.error)))
  {
    if filePath !in files then Err(ReadFailed(filePath))
    else
      var content := files[filePath];
      match FormatOf(ExtName(filePath))
      case Err(f) => Err(f)
      case Ok(format) =>
        match parse(format, content)
        case Ok(doc) => Ok(doc)
        case Err(m) => Err(ParseFailed(m))
  }

  /** Appending text without `c` does not move the last `c`. */
  lemma {:induction false} LastIndexOfAppend(s: string, t: string, c: char)
    requires forall j :: 0 <= j < |t| ==> t[j] != c
    ensures LastIndexOf(s + t, c) == LastIndexOf(s, c)
    decreases |t|
  {
    if t != [] {
      var u := s + t;
      assert u[..|u| - 1] == s + t[..|t| - 1];
      LastIndexOfAppend(s, t[..|t| - 1], c);
    } else {
      assert s + t == s;
    }
  }

  /** The last `c` is the one after which no `c` follows. */
  lemma LastIndexOfAt(s: string, c: char, k: nat)
    requires k < |s| && s[k] == c
    requires forall j :: k < j < |s| ==> s[j] != c
    ensures LastIndexOf(s, c) == Some(k)
  {
  }

  /**
   * A path that ends in `ext` (a dot and then no dot or separator), where
   * the dot is not the first character of the last segment, has the
   * extension `ext`.
   */
  lemma ExtNameOfSuffix(s: string, ext: string)
    requires s != [] && s[|s| - 1] != '/'
    requires |ext| > 1 && ext[0] == '.'
    requires forall j :: 0 < j < |ext| ==> ext[j] != '.' && ext[j] != '/'
    ensures ExtName(s + ext) == ext
  {
    var p := s + ext;
    var start: nat := BaseStart(s, ext);
    var b := s[start..] + ext;
    assert BaseName(p) == b;
    var d := |s| - start;
    assert d > 0;
    assert b[d..] == ext;
    assert forall j :: d < j < |b| ==> b[j] == ext[j - d];
    LastIndexOfAt(b, '.', d);
    assert b != ".." by {
      assert b[|b| - 1] == ext[|ext| - 1];
    }
  }

  /** Where the last segment of `s + tail` starts, when `tail` has no separator. */
  lemma BaseStart(s: string, tail: string) returns (start: nat)
    requires s != [] && s[|s| - 1] != '/'
    requires forall j :: 0 <= j < |tail| ==> tail[j] != '/'
    ensures start < |s|
    ensures BaseName(s + tail) == s[start..] + tail
  {
    LastIndexOfAppend(s, tail, '/');
    var p := s + tail;
    match LastIndexOf(s, '/')
    case None =>
      start := 0;
      assert s[start..] == s;
    case Some(i) =>
      start := i + 1;
      assert p[start..] == s[start..] + tail;
  }
}
