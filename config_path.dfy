/**
 * Locating the spec file (`ensureAndGetConfigPath`): an explicit path must
 * exist; without one, the first existing conventional path is taken.
 */
module ConfigPath {
  import opened Wrappers
  import opened Failures
  import opened SpecFormat

  /** The conventional locations, searched in this order. */
  const DefaultConfigPaths: seq<string> := [
    "paperspace.yaml",
    "paperspace.yml",
    "paperspace.json",
    "paperspace.jsonc",
    "paperspace.toml",
    ".paperspace/app.yaml",
    ".paperspace/app.yml",
    ".paperspace/app.json",
    ".paperspace/app.jsonc",
    ".paperspace/app.toml"
  ]

  /** `path.join(workspace, rel)` without `.`/`..` normalisation. */
  function JoinPath(workspace: string, rel: string): string {
    if workspace == "" then rel
    else if workspace[|workspace| - 1] == '/' then workspace + rel
    else workspace + "/" + rel
  }

  /** The index of the first name whose joined path exists. */
  function FirstExisting(workspace: string, names: seq<string>, existing: set<string>): (r: Option<nat>)
    ensures r.None? <==> forall i :: 0 <= i < |names| ==> JoinPath(workspace, names[i]) !in existing
    ensures r.Some? ==> r.value < |names| && JoinPath(workspace, names[r.value]) in existing
    ensures r.Some? ==> forall j :: 0 <= j < r.value ==> JoinPath(workspace, names[j]) !in existing
    decreases |names|
  {
    if names == [] then None
    else if JoinPath(workspace, names[0]) in existing then Some(0)
    else
      match FirstExisting(workspace, names[1..], existing)
      case None => None
      case Some(i) => Some(i + 1)
  }

  /**
   * The path `ensureAndGetConfigPath` returns, or the error it throws, given
   * the `configPath` input, the workspace directory and the existing files.
   */
  function ConfigPathOf(input: string, workspace: string, existing: set<string>): (r: Result<string, Failure>)
    ensures input != "" ==> (r.Ok? <==> JoinPath(workspace, input) in existing)
    ensures input != "" && r.Ok? ==> r.value == JoinPath(workspace, input)
    ensures input != "" && r.Err? ==> r.error == FileNotFound(JoinPath(workspace, input))
    ensures input == "" ==>
      (r.Err? <==> forall i :: 0 <= i < |DefaultConfigPaths| ==> JoinPath(workspace, DefaultConfigPaths[i]) !in existing)
    ensures input == "" && r.Err? ==> r.error == NoSpecFile(DefaultConfigPaths)
    ensures input == "" && r.Ok? ==>
      exists i :: 0 <= i < |DefaultConfigPaths| && r.value == JoinPath(workspace, DefaultConfigPaths[i]) &&
        r.value in existing &&
        forall j :: 0 <= j < i ==> JoinPath(workspace, DefaultConfigPaths[j]) !in existing
  {
    if input != "" then
      var relPath := JoinPath(workspace, input);
      if relPath in existing then Ok(relPath) else Err(FileNotFound(relPath))
    else
      match FirstExisting(workspace, DefaultConfigPaths, existing)
      case Some(i) => Ok(JoinPath(workspace, DefaultConfigPaths[i]))
      case None => Err(NoSpecFile(DefaultConfigPaths))
  }

  /** `ensureAndGetConfigPath`, with the search loop and its early return. */
  method EnsureAndGetConfigPath(input: string, workspace: string, existing: set<string>)
    returns (r: Result<string, Failure>)
    ensures r == ConfigPathOf(input, workspace, existing)
  {
    if input != "" {
      var relPath := JoinPath(workspace, input);
      if relPath !in existing {
        return Err(FileNotFound(relPath));
      }
      return Ok(relPath);
    }
    var i := 0;
    while i < |DefaultConfigPaths|
      invariant 0 <= i <= |DefaultConfigPaths|
      invariant forall j :: 0 <= j < i ==> JoinPath(workspace, DefaultConfigPaths[j]) !in existing
    {
      var pathToTry := JoinPath(workspace, DefaultConfigPaths[i]);
      if pathToTry in existing {
        ghost var first := FirstExisting(workspace, DefaultConfigPaths, existing);
        assert first == Some(i);
        return Ok(pathToTry);
      }
      i := i + 1;
    }
    return Err(NoSpecFile(DefaultConfigPaths));
  }

  /** A file `stem` + `ext` joined onto the workspace keeps the extension `ext`. */
  lemma JoinedExtName(workspace: string, stem: string, ext: string)
    requires stem != [] && stem[|stem| - 1] != '/'
    requires |ext| > 1 && ext[0] == '.'
    requires forall j :: 0 < j < |ext| ==> ext[j] != '.' && ext[j] != '/'
    ensures ExtName(JoinPath(workspace, stem + ext)) == ext
  {
    var prefix := JoinPath(workspace, "");
    assert JoinPath(workspace, stem + ext) == (prefix + stem) + ext;
    assert (prefix + stem)[|prefix + stem| - 1] == stem[|stem| - 1];
    ExtNameOfSuffix(prefix + stem, ext);
  }

  /**
   * The two `.yml` locations are searched but no parser is chosen for them:
   * every default path is accepted by the extension dispatch except those two,
   * which fail with "Unsupported file extension: .yml".
   */
  lemma DefaultPathFormats(workspace: string, i: nat)
    requires i < |DefaultConfigPaths|
    ensures i == 1 || i == 6 ==>
      FormatOf(ExtName(JoinPath(workspace, DefaultConfigPaths[i]))) == Err(UnsupportedExtension(".yml"))
    ensures i != 1 && i != 6 ==> FormatOf(ExtName(JoinPath(workspace, DefaultConfigPaths[i]))).Ok?
  {
    var ext := DefaultPathExt(workspace, i);
    assert i == 1 || i == 6 <==> Column(i) == 1;
    if Column(i) == 0 { assert ext == ".yaml"; }
    else if Column(i) == 1 { assert ext == ".yml"; }
    else if Column(i) == 2 { assert ext == ".json"; }
    else if Column(i) == 3 { assert ext == ".jsonc"; }
    else { assert ext == ".toml"; }
  }

  /** The position of the `i`-th default path among the five extensions. */
  function Column(i: nat): nat {
    if i < 5 then i else i - 5
  }

  /** The extension of the `i`-th default path, joined onto the workspace. */
  lemma DefaultPathExt(workspace: string, i: nat) returns (ext: string)
    requires i < |DefaultConfigPaths|
    ensures ext == ExtName(JoinPath(workspace, DefaultConfigPaths[i]))
    ensures ext ==
      if Column(i) == 0 then ".yaml" else if Column(i) == 1 then ".yml" else if Column(i) == 2 then ".json"
      else if Column(i) == 3 then ".jsonc" else ".toml"
  {
    var stem := if i < 5 then "paperspace" else ".paperspace/app";
    ext :=
      if Column(i) == 0 then ".yaml" else if Column(i) == 1 then ".yml" else if Column(i) == 2 then ".json"
      else if Column(i) == 3 then ".jsonc" else ".toml";
    assert DefaultConfigPaths[i] == stem + ext by {
      if i == 0 {} else if i == 1 {} else if i == 2 {} else if i == 3 {} else if i == 4 {}
      else if i == 5 {} else if i == 6 {} else if i == 7 {} else if i == 8 {} else {}
    }
    assert stem[|stem| - 1] == 'e' || stem[|stem| - 1] == 'p';
    assert forall j :: 0 < j < |ext| ==> ext[j] != '.' && ext[j] != '/';
    JoinedExtName(workspace, stem, ext);
  }
}
