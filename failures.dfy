/** The errors the action raises before it reaches the upsert. */
module Failures {

  datatype Failure =
    | MissingApiKey
    | FileNotFound(path: string)
    | NoSpecFile(searched: seq<string>)
    | ReadFailed(path: string)
    | UnsupportedExtension(ext: string)
    | ParseFailed(message: string)

  function JoinWith(parts: seq<string>, sep: string): string
    decreases |parts|
  {
    if parts == [] then ""
    else if |parts| == 1 then parts[0]
    else parts[0] + sep + JoinWith(parts[1..], sep)
  }

  const NoSpecFilePrefix := "No Paperspace spec file found at any of the following paths: "

  /** The text the action reports as failed. */
  function Message(f: Failure): (r: string)
    ensures f.MissingApiKey? ==> r == "Neither env.PAPERSPACE_API_KEY or inputs.apiKey exists"
    ensures f.FileNotFound? ==> r == "File not found at path: " + f.path
    ensures f.NoSpecFile? ==> r == NoSpecFilePrefix + JoinWith(f.searched, ", ")
    ensures f.UnsupportedExtension? ==> r == "Unsupported file extension: " + f.ext
    ensures f.ParseFailed? ==> r == f.message
  {
    match f
    case MissingApiKey => "Neither env.PAPERSPACE_API_KEY or inputs.apiKey exists"
    case FileNotFound(p) => "File not found at path: " + p
    case NoSpecFile(searched) => NoSpecFilePrefix + JoinWith(searched, ", ")
    case ReadFailed(p) => "ENOENT: no such file or directory, open '" + p + "'"
    case UnsupportedExtension(ext) => "Unsupported file extension: " + ext
    case ParseFailed(m) => m
  }

  /** Every part appears in the joined text, at the offset the returned `k` names. */
  lemma {:induction false} JoinWithListsEvery(parts: seq<string>, sep: string, i: nat) returns (k: nat)
    requires i < |parts|
    ensures k + |parts[i]| <= |JoinWith(parts, sep)|
    ensures JoinWith(parts, sep)[k..k + |parts[i]|] == parts[i]
    decreases |parts|
  {
    if |parts| == 1 {
      k := 0;
    } else if i == 0 {
      k := 0;
      var j := parts[0] + sep + JoinWith(parts[1..], sep);
      assert j[..|parts[0]|] == parts[0];
    } else {
      var k' := JoinWithListsEvery(parts[1..], sep, i - 1);
      var rest := JoinWith(parts[1..], sep);
      k := |parts[0]| + |sep| + k';
      assert JoinWith(parts, sep) == (parts[0] + sep) + rest;
      assert JoinWith(parts, sep)[k..k + |parts[i]|] == rest[k'..k' + |parts[i]|];
    }
  }

  /** The no-spec-file error names every path that was searched. */
  lemma NoSpecFileNamesEveryPath(searched: seq<string>, i: nat) returns (k: nat)
    requires i < |searched|
    ensures k + |searched[i]| <= |Message(NoSpecFile(searched))|
    ensures Message(NoSpecFile(searched))[k..k + |searched[i]|] == searched[i]
  {
    var k' := JoinWithListsEvery(searched, ", ", i);
    var joined := JoinWith(searched, ", ");
    k := |NoSpecFilePrefix| + k';
    assert Message(NoSpecFile(searched))[k..k + |searched[i]|] == joined[k'..k' + |searched[i]|];
  }
}
