/**
 * The action's entry point (`run` and `maybeSyncDeployment`): validate the
 * inputs, locate and parse the spec, normalise it, skip when the platform
 * already holds the same spec hash, and otherwise upsert and wait.
 */
module Reconcile {
  import opened Wrappers
  import opened JsValue
  import opened Failures
  import opened SpecFormat
  import opened ConfigPath
  import opened SpecNormalize
  import opened Sync

  /** The deployment `getDeploymentByProjectAndName` finds, as far as the skip check reads it. */
  datatype RemoteDeployment = RemoteDeployment(latestSpecHash: Value)

  /**
   * Everything the action reads from outside. Unset environment variables
   * and inputs are "". `files` holds the existing files and their contents;
   * `parse` stands for the parsing libraries, `lookup` for the deployment
   * search by the spec's `name`, `hash` for the object digest, `upsert` for
   * the upsert call and the id it answers; `start` is the clock reading after
   * the upsert and `polls` the platform's answers to the status fetches.
   */
  datatype Env = Env(
    apiKeyEnv: string,
    apiKeyInput: string,
    configPathInput: string,
    workspace: string,
    files: map<string, string>,
    parse: (Format, string) -> Result<Spec, string>,
    lookup: Value -> Option<RemoteDeployment>,
    imageInput: string,
    forceInput: string,
    hash: Spec -> string,
    upsert: Spec -> Option<string>,
    start: int,
    polls: seq<Poll>)

  /**
   * How one invocation ends. `imageWarning` says whether the warning about a
   * missing ":image" placeholder was emitted. `Proceeded` is every ending
   * after the skip check: the upsert was attempted, and `outcome` says how
   * it and the wait for the deployment ended, failures included.
   */
  datatype Report =
    | Failed(failure: Failure)
    | Skipped(imageWarning: bool)
    | Proceeded(outcome: Outcome, fetches: nat, imageWarning: bool)

  /** `process.env.PAPERSPACE_API_KEY || core.getInput("apiKey")`. */
  function ApiKey(env: Env): string {
    if env.apiKeyEnv != "" then env.apiKeyEnv else env.apiKeyInput
  }

  /** `validateParams`: an API key must come from the environment or the input. */
  function ValidateParams(env: Env): (r: Option<Failure>)
    ensures r.None? <==> env.apiKeyEnv != "" || env.apiKeyInput != ""
    ensures r.Some? ==> r.value == MissingApiKey
  {
    if ApiKey(env) == "" then Some(MissingApiKey) else None
  }

  /** `Boolean(core.getInput("force"))`: any non-empty input forces. */
  predicate ShouldForce(env: Env): (r: bool)
    ensures r <==> |env.forceInput| > 0
    ensures env.forceInput == "false" ==> r
  {
    env.forceInput != ""
  }

  /** The skip decision, on the already normalised spec. */
  predicate ShouldSkip(spec: Spec, remote: Option<RemoteDeployment>, force: bool, hash: Spec -> string): (r: bool)
    ensures remote.None? || force ==> !r
    ensures r <==> remote.Some? && !force && remote.value.latestSpecHash == Str(hash(spec))
  {
    remote.Some? && !force && remote.value.latestSpecHash == Str(hash(spec))
  }

  /** What `maybeSyncDeployment` does once the spec is parsed. */
  function Decide(parsed: Spec, env: Env): (r: Report)
    ensures !r.Failed?
  {
    var remote := env.lookup(Get(parsed, "name"));
    var (spec, warned) := Normalize(parsed, env.imageInput);
    if ShouldSkip(spec, remote, ShouldForce(env), env.hash) then Skipped(warned)
    else
      var (outcome, fetches) := SyncOutcome(env.upsert(spec), env.start, env.polls);
      Proceeded(outcome, fetches, warned)
  }

  /** `maybeSyncDeployment`: locate, parse, then decide. */
  function MaybeSync(env: Env): Report {
    match ConfigPathOf(env.configPathInput, env.workspace, env.files.Keys)
    case Err(f) => Failed(f)
    case Ok(path) =>
      match ParseByExt(path, env.files, env.parse)
      case Err(f) => Failed(f)
      case Ok(parsed) => Decide(parsed, env)
  }

  /** `run`: validation first, then the rest. */
  function ActionResult(env: Env): Report {
    match ValidateParams(env)
    case Some(f) => Failed(f)
    case None => MaybeSync(env)
  }

  /** Whether the action reports failure. */
  predicate ActionFails(r: Report) {
    r.Failed? || (r.Proceeded? && IsFailure(r.outcome))
  }

  /**
   * `maybeSyncDeployment`, step by step: the parsed spec is normalised in
   * place before it is hashed and upserted.
   */
  method MaybeSyncDeployment(env: Env) returns (report: Report)
    ensures report == MaybeSync(env)
  {
    var filePath := EnsureAndGetConfigPath(env.configPathInput, env.workspace, env.files.Keys);
    if filePath.Err? {
      return Failed(filePath.error);
    }
    var loaded := ParseByExt(filePath.value, env.files, env.parse);
    if loaded.Err? {
      return Failed(loaded.error);
    }
    var parsed := loaded.value;
    var deployment := env.lookup(Get(parsed, "name"));

    if !Truthy(Get(parsed, "apiVersion")) {
      parsed := parsed["apiVersion" := Str(LatestApiVersion)];
    }
    var warned := false;
    if env.imageInput != "" {
      warned := Get(parsed, "image") != Str(PlaceholderImage);
      parsed := parsed["image" := Str(env.imageInput)];
    }
    assert (parsed, warned) == Normalize(loaded.value, env.imageInput);

    if deployment.Some? && !ShouldForce(env) {
      var specHash := env.hash(parsed);
      if deployment.value.latestSpecHash == Str(specHash) {
        return Skipped(warned);
      }
    }
    var outcome, fetches := SyncDeployment(env.upsert(parsed), env.start, env.polls);
    report := Proceeded(outcome, fetches, warned);
  }

  /** `run`. */
  method RunAction(env: Env) returns (report: Report)
    ensures report == ActionResult(env)
  {
    var invalid := ValidateParams(env);
    if invalid.Some? {
      return Failed(invalid.value);
    }
    report := MaybeSyncDeployment(env);
  }

  /**
   * The action returns without upserting exactly when the deployment
   * exists, force is off and the hash of the normalised spec equals the
   * platform's `latestSpecHash`.
   */
  lemma SkipIffUnchanged(parsed: Spec, env: Env)
    ensures Decide(parsed, env).Skipped? <==>
      && env.lookup(Get(parsed, "name")).Some?
      && env.forceInput == ""
      && env.lookup(Get(parsed, "name")).value.latestSpecHash == Str(env.hash(Normalize(parsed, env.imageInput).0))
  {
  }

  /** A missing deployment or the force flag always leads to the upsert. */
  lemma NewOrForcedAlwaysUpserts(parsed: Spec, env: Env)
    requires env.lookup(Get(parsed, "name")).None? || env.forceInput != ""
    ensures Decide(parsed, env).Proceeded?
  {
  }

  /**
   * The force input is read as a plain string, so "false" forces the upsert
   * just as "true" does.
   */
  lemma ForceInputFalseStillForces(parsed: Spec, env: Env)
    requires env.forceInput == "false"
    ensures ShouldForce(env)
    ensures Decide(parsed, env).Proceeded?
  {
  }

  /**
   * Hashing sees the normalised spec only: two parsed specs with the same
   * name that normalise alike lead to the same decision and the same sync.
   */
  lemma DecisionSeesNormalisedSpec(parsed1: Spec, parsed2: Spec, env: Env)
    requires Get(parsed1, "name") == Get(parsed2, "name")
    requires Normalize(parsed1, env.imageInput).0 == Normalize(parsed2, env.imageInput).0
    ensures Decide(parsed1, env).Skipped? == Decide(parsed2, env).Skipped?
    ensures Decide(parsed1, env).Proceeded? ==>
      Decide(parsed1, env).outcome == Decide(parsed2, env).outcome &&
      Decide(parsed1, env).fetches == Decide(parsed2, env).fetches
  {
  }

  /** A spec without `apiVersion` is treated exactly as one that says "latest". */
  lemma MissingApiVersionSameDecision(parsed: Spec, env: Env)
    requires !Truthy(Get(parsed, "apiVersion"))
    ensures Decide(parsed, env) == Decide(parsed["apiVersion" := Str(LatestApiVersion)], env)
  {
    MissingApiVersionIsLatest(parsed, env.imageInput);
    assert Get(parsed, "name") == Get(parsed["apiVersion" := Str(LatestApiVersion)], "name");
  }

  /**
   * Idempotence: once the platform holds the hash of what the action would
   * upsert, a run without force does not upsert again, even if the file
   * already holds the normalised spec.
   */
  lemma SecondRunSkips(parsed: Spec, env: Env)
    requires env.forceInput == ""
    requires env.lookup(Get(parsed, "name")).Some?
    requires env.lookup(Get(parsed, "name")).value.latestSpecHash ==
      Str(env.hash(Normalize(parsed, env.imageInput).0))
    ensures Decide(parsed, env).Skipped?
    ensures Decide(Normalize(parsed, env.imageInput).0, env).Skipped?
  {
    NormalizeIdempotent(parsed, env.imageInput);
  }

  /** Without an upsert id the action fails with "Deployment upsert failed" before any fetch. */
  lemma UpsertWithoutIdFails(parsed: Spec, env: Env)
    requires !Decide(parsed, env).Skipped?
    requires !UpsertSucceeded(env.upsert(Normalize(parsed, env.imageInput).0))
    ensures Decide(parsed, env).Proceeded?
    ensures Decide(parsed, env).outcome == UpsertFailed && Decide(parsed, env).fetches == 0
  {
  }

  /**
   * When the search finds a `.yml` default file first, the action fails
   * with "Unsupported file extension: .yml", whatever the file holds.
   */
  lemma YmlDefaultIsRejected(env: Env)
    requires env.configPathInput == ""
    requires FirstExisting(env.workspace, DefaultConfigPaths, env.files.Keys) == Some(1) ||
             FirstExisting(env.workspace, DefaultConfigPaths, env.files.Keys) == Some(6)
    ensures MaybeSync(env) == Failed(UnsupportedExtension(".yml"))
  {
    var i := FirstExisting(env.workspace, DefaultConfigPaths, env.files.Keys).value;
    DefaultPathFormats(env.workspace, i);
  }

  lemma YmlText()
    ensures Message(UnsupportedExtension(".yml")) == "Unsupported file extension: .yml"
  {
  }

  /** The text reported for a `.yml` default found first. */
  lemma YmlDefaultMessage(env: Env)
    requires env.configPathInput == ""
    requires FirstExisting(env.workspace, DefaultConfigPaths, env.files.Keys) == Some(1) ||
             FirstExisting(env.workspace, DefaultConfigPaths, env.files.Keys) == Some(6)
    ensures MaybeSync(env).Failed?
    ensures Message(MaybeSync(env).failure) == "Unsupported file extension: .yml"
  {
    YmlDefaultIsRejected(env);
    YmlText();
  }

  /** A run without API key fails before anything else happens. */
  lemma MissingKeyFailsFirst(env: Env)
    requires env.apiKeyEnv == "" && env.apiKeyInput == ""
    ensures ActionResult(env) == Failed(MissingApiKey)
    ensures ActionFails(ActionResult(env))
  {
  }
}
