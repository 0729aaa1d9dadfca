# Deploy action: reconcile once and wait

This project models the decision logic of a continuous-integration action that deploys a
declarative spec to a remote deployment platform. One invocation does five things:

1. It checks that an API key is present.
2. It locates the spec file, either an explicit `configPath` or the first existing one of ten
   conventional paths, and picks a parser by file extension.
3. It normalises the parsed spec. A falsy `apiVersion` becomes `"latest"`. A non-empty image
   input replaces `image`, with a warning when the file did not hold the `":image"` placeholder.
4. It skips the deployment when the platform's deployment exists, force is off, and the hash of
   the normalised spec equals the platform's `latestSpecHash`.
5. Otherwise it upserts the spec and polls. Only snapshots the platform has applied to the
   cluster (`externalApplied`) are judged. For those it checks, in this order: timeout (strictly
   more than 5 minutes since the upsert), disabled (no runs, and the spec is disabled or has no
   replicas), and stable (`dtHealthy`). Every pass that does not end the loop sleeps 3000 ms.

Modules, leaves first:

- `Wrappers` holds `Option` and `Result`.
- `JsValue` holds JavaScript values, truthiness, and property reads that may throw a TypeError.
- `Failures` holds the errors raised before the upsert, with their texts.
- `SpecFormat` holds `path.extname` and the extension switch of `parseByExt`.
- `ConfigPath` holds the default list and `ensureAndGetConfigPath`.
- `SpecNormalize` holds the `apiVersion` default and the image override.
- `DeploymentStatus` holds `isDeploymentDisabled`, `isDeploymentStable` and the bad-instance
  search of `throwBadDeployError`.
- `Sync` holds the poll loop of `syncDeployment`.
- `Reconcile` holds `maybeSyncDeployment` and `run`.

The outside world is an `Env` value:

- Input strings, with "" for an unset variable or input.
- The existing files, as a map from path to contents. File existence is membership in its keys.
- The parsing libraries, the deployment lookup, the object hash and the upsert call. Each is a
  function-typed parameter, so the model assumes nothing about them.
- A clock reading taken right after the upsert.
- A finite sequence of polls. Each poll is the platform's answer plus the milliseconds its
  fetch took. The clock at a fetch is the start reading plus all fetch times so far plus 3000 ms
  per earlier pass. The first fetch follows the upsert with no sleep.

The imperative parts of the source are methods with loops or step-by-step updates. Each is
proved equal to a specification function:

- The default-path search is `ConfigPath.EnsureAndGetConfigPath`.
- The in-place normalisation is `Reconcile.MaybeSyncDeployment`.
- The poll loop is `Sync.SyncDeployment`.

In these places the code behaves differently from what its names and messages suggest. The model follows the code:

- The loop fetches first and sleeps after the checks, so the first fetch comes right after the upsert.
- A gated snapshot with zero runs that is not disabled is still judged on `dtHealthy`. It is not
  treated as inconclusive.
- Stability is `latestSpec.dtHealthy` only. There is no check of run replica counts.
- `apiVersion` is defaulted when it is falsy, not only when it is absent.
- With a bad instance, the timeout error is a multi-line template literal. It starts with a line
  break and indentation, so it contains "Deployment update timed out after 5 minutes." but does
  not start with it (`DeploymentStatus.TimeoutMessageMentions`). The `badInstance ? … : ""`
  alternative at src/index.ts:126 is dead code. Whenever a bad run is found, its bad instance
  exists.
- The force input is converted with `Boolean(...)`, so the string "false" also forces
  (`Reconcile.ForceInputFalseStillForces`).

## Model

| member | source | states |
|---|---|---|
| `SpecFormat.FormatOf` | src/index.ts:190-201 | the switch accepts exactly `.yaml`, `.toml`, `.jsonc`, `.json`; the chosen parser's extension is the input; anything else is "Unsupported file extension" with that extension |
| `SpecFormat.FormatOfExtensionOf` | src/index.ts:190-198 | each parser is selected by its own extension and by no other |
| `SpecFormat.ExtName` | src/index.ts:187 | `path.extname` is empty or a suffix of the path that starts with a dot and holds no other dot and no separator |
| `SpecFormat.ParseByExt` | src/index.ts:186-202 | the file is read before dispatch, so a missing file fails first; an unsupported extension fails with "Unsupported file extension"; for an existing file with a supported extension, the result is exactly the selected parser's value, or its error as a parse failure |
| `SpecFormat.ExtNameOfSuffix` | src/index.ts:187 | `path.extname` of a path ending in a dot and a dot-free suffix is that suffix, when the dot does not open the last segment |
| `ConfigPath.FirstExisting` | src/index.ts:62-72 | the first index whose joined path exists, with none before it; none iff no candidate exists |
| `ConfigPath.ConfigPathOf` | src/index.ts:42-79 | an explicit input gives the joined path iff it exists, else "File not found"; without input, the first existing default path in list order, and "No Paperspace spec file found" iff none exists |
| `ConfigPath.EnsureAndGetConfigPath` | src/index.ts:42-79 | the early-return search loop returns exactly `ConfigPathOf` |
| `ConfigPath.DefaultPathFormats` | src/index.ts:22-33 | every default path is accepted by the extension switch except the two `.yml` ones, which fail with "Unsupported file extension: .yml" |
| `SpecNormalize.DefaultApiVersion` | src/index.ts:218-220 | afterwards `apiVersion` is truthy; a falsy one becomes "latest", a truthy one is kept; every other key is unchanged |
| `SpecNormalize.OverrideImage` | src/index.ts:223-236 | with a non-empty input `image` equals the input afterwards; the warning is emitted iff the input is non-empty and the original `image` was not ":image"; other keys are unchanged; an empty input changes nothing |
| `SpecNormalize.Normalize` | src/index.ts:215-236 | the combined effect on `apiVersion`, `image`, the warning, the key set and all other keys |
| `SpecNormalize.NormalizeIdempotent` | src/index.ts:218-236 | normalising an already normalised spec gives the same spec |
| `SpecNormalize.MissingApiVersionIsLatest` | src/index.ts:215-220 | a spec with a falsy `apiVersion` normalises exactly like the same spec with "latest" |
| `SpecNormalize.OverrideHidesFileImage` | src/index.ts:234-235 | with an image input, specs that differ only in `image` normalise to the same spec |
| `DeploymentStatus.FirstBadInstance` | src/index.ts:112-114 | index of the first instance in state "errored" or "failed"; none iff there is none |
| `DeploymentStatus.FirstBadRun` | src/index.ts:111-117 | index of the first run that has a bad instance; none iff no run has one |
| `DeploymentStatus.LastInstanceMessage` | src/index.ts:110-127 | the message of the first bad instance of the first run that has one; none iff no run has a bad instance |
| `DeploymentStatus.TimeoutMessage` | src/index.ts:124-132 | without an instance message the error is exactly the timeout sentence; with one, it opens with a line break and six spaces, then the sentence, then a line break and six spaces, then "Last instance message: " and the message, and it ends with a line break and four spaces |
| `DeploymentStatus.TimeoutMessageMentions` | src/index.ts:124-132 | the timeout error always contains "Deployment update timed out after 5 minutes."; with an instance message it contains "Last instance message: " followed by it; without one it is exactly the timeout sentence |
| `DeploymentStatus.IsDeploymentDisabled` | src/index.ts:92-108 | true iff there are no runs, `latestSpec.data` is an object with `resources`, and `enabled === false` or `resources.replicas` is falsy; false whenever `data` is missing or falsy or lacks `resources`; throws exactly when `data` is a truthy primitive or `resources` is null on the replicas read |
| `DeploymentStatus.IsDeploymentStable` | src/index.ts:135-139 | true iff `latestSpec` exists and its `dtHealthy` is truthy; false without `latestSpec` |
| `Sync.Gated` | src/index.ts:162 | a snapshot is judged iff its `latestSpec` exists and `externalApplied` is truthy |
| `Sync.Evaluate` | src/index.ts:162-179 | an unapplied snapshot never decides; timeout strictly past 5 minutes wins over everything and happens only then; disabled iff applied, in time and disabled; a failed property read iff applied, in time and the disabled check throws; stable iff applied, in time, not disabled and `dtHealthy`; no decision iff unapplied, or in time, not disabled and not stable |
| `Sync.Drive` | src/index.ts:156-183 | the loop makes at most one fetch per poll, never reports an upsert failure, ends Pending only after using every poll, and otherwise after at least one fetch |
| `Sync.SyncDeployment` | src/index.ts:142-184 | the fetch-check-sleep loop computes `SyncOutcome`; it ends in the `UpsertFailed` outcome (the source's "Deployment upsert failed" error) iff the upsert gave no id, and then makes zero fetches |
| `Sync.DriveIsFirstDecision` | src/index.ts:156-183 | the outcome is the decision of the first poll that reaches one, at that poll's clock reading; every earlier poll only slept; Pending means no poll decided |
| `Sync.ElapsedClosedForm` | src/index.ts:152-182 | the clock at the k-th fetch is the start reading plus all fetch times so far plus 3000 ms per earlier pass, so the first fetch follows the upsert without a sleep |
| `Sync.ElapsedSpacing` | src/index.ts:182 | fetches are at least 3000 ms per pass apart |
| `Sync.UngatedPassSleeps` | src/index.ts:162-182 | a snapshot without `externalApplied` leads straight to the sleep and the next fetch, however late it is |
| `Sync.NeverAppliedNeverEnds` | src/index.ts:159-162 | if no snapshot is applied, the loop neither succeeds nor times out |
| `Sync.TimeoutOnlyPastDeadline` | src/index.ts:162-165 | a timeout comes only from an applied snapshot fetched strictly more than 5 minutes after the upsert, and carries that snapshot's first bad-instance message |
| `Sync.NoTimeoutWithinDeadline` | src/index.ts:163-165 | while every fetch returns within 5 minutes of the upsert, there is no timeout |
| `Sync.DisabledOutcome` | src/index.ts:167-172 | success as disabled comes from an applied, in-time snapshot with no runs that is disabled |
| `Sync.StableOutcome` | src/index.ts:174-179 | success as stable comes from an applied, in-time snapshot that is not disabled and whose `dtHealthy` is truthy |
| `Failures.Message` | src/index.ts:54-200 | the exact texts of the errors raised before the upsert: the missing-key sentence; "File not found at path: " and the path; "No Paperspace spec file found at any of the following paths: " and the searched paths joined with ", "; "Unsupported file extension: " and the extension; a parse error's own message |
| `Failures.JoinWithListsEvery` | src/index.ts:75-77 | `join(", ")` keeps every part: each one appears in the joined text |
| `Failures.NoSpecFileNamesEveryPath` | src/index.ts:74-78 | the no-spec-file error names every path that was searched |
| `Reconcile.ShouldForce` | src/index.ts:40 | `Boolean` of the force input: true iff the input is non-empty, so "false" is true too |
| `Reconcile.ShouldSkip` | src/index.ts:238-252 | never without a deployment or with force; otherwise iff the hash of the normalised spec equals `latestSpecHash` |
| `Reconcile.ValidateParams` | src/index.ts:84-90 | the inputs are valid iff the environment variable or the input supplies an API key |
| `Reconcile.Decide` | src/index.ts:210-260 | once the spec is parsed, the outcome is a skip or a sync, never an earlier failure |
| `Reconcile.MaybeSyncDeployment` | src/index.ts:204-261 | the step-by-step version that normalises in place, hashes and upserts computes `MaybeSync` |
| `Reconcile.RunAction` | src/index.ts:263-271 | validation, then the rest, computes `ActionResult` |
| `Reconcile.SkipIffUnchanged` | src/index.ts:238-252 | the action skips iff the deployment exists, force is off and the hash of the normalised spec equals `latestSpecHash` |
| `Reconcile.NewOrForcedAlwaysUpserts` | src/index.ts:238-260 | a missing deployment or any non-empty force input always leads to the upsert |
| `Reconcile.ForceInputFalseStillForces` | src/index.ts:40 | the force input "false" forces the upsert |
| `Reconcile.DecisionSeesNormalisedSpec` | src/index.ts:215-242 | two specs with the same name that normalise alike get the same skip decision and the same sync outcome, so normalisation precedes hashing |
| `Reconcile.MissingApiVersionSameDecision` | src/index.ts:215-240 | a spec without `apiVersion` gets exactly the result of the same spec with "latest" |
| `Reconcile.SecondRunSkips` | src/index.ts:238-252 | once the platform holds the hash of the normalised spec, a run without force skips, and so does a second run on the normalised spec itself |
| `Reconcile.UpsertWithoutIdFails` | src/index.ts:143-150 | an upsert without id ends in the `UpsertFailed` outcome (the source's "Deployment upsert failed" error) with zero fetches |
| `Reconcile.YmlDefaultIsRejected` | src/index.ts:22-33 | when the search finds a `.yml` default first, the action fails with "Unsupported file extension: .yml" |
| `Reconcile.YmlDefaultMessage` | src/index.ts:22-33 | in that case the reported text is exactly "Unsupported file extension: .yml" |
| `Reconcile.MissingKeyFailsFirst` | src/index.ts:84-90 | without an API key the action fails with the missing-key error before anything else |

## Left out

- The HTTP client in src/service.ts is not modelled. Its exports do not match what
  src/index.ts imports. The client appears only in the shape src/index.ts uses: a lookup by
  name, an upsert that answers an id, and a fetch answering runs and a deployment.
- Exceptions thrown by the client (HTTP errors, a missing deployment in a fetch) are not
  modelled. The source does not retry them either.
- The YAML, TOML, JSONC and JSON libraries are a parameter. A parsed document that is not an
  object (null, a scalar, an array) is not modelled.
- The object-hash md5 digest is a parameter. Its stability across key order is a property of
  that library, not of this code.
- `dayjs` time is integer milliseconds. `setTimeout` is a 3000 ms clock advance. Fetch times
  are given per poll.
- SyncDeployment: the source polls without bound. The model reads a finite sequence of polls
  and reports Pending when it runs out.
- Logging (`core.info`, `core.warning`) is not modelled, except the image warning, which is a
  flag in the report. `core.setFailed` is not modelled either. `ActionFails` says which
  reports lead to it.
- Reading inputs at module load (src/index.ts:36-40) is not modelled. Inputs are given as
  already-trimmed strings. `image` and `projectId` are declared required there, so
  `@actions/core` rejects them empty before `run` starts. The model still covers the empty-image
  branch of src/index.ts:223.
- `path.join` is concatenation with one separator. It does not normalise `.` and `..` segments,
  does not collapse repeated separators, and does not drop a leading `/` of the input after
  the workspace. Paths are POSIX only; the `path.win32` rules of Windows runners are not
  modelled. `path.extname` does not strip trailing separators.
- `fs.existsSync` is membership in the map of readable files. A path that exists but cannot be
  read (a directory) is not modelled.
- JavaScript numbers are integers. NaN and fractional values are not modelled.
- Sync.Outcome: PropertyReadFailed stands for the TypeError that `isDeploymentDisabled` can
  throw. Its engine-specific message text is not modelled.
- `stateMessage` is a string. A missing message, which the template would print as
  "undefined", is not modelled. Runs without an `instances` array are not modelled.
- Built-in properties of primitives and arrays (`length` and the like) are not modelled as
  JavaScript property reads. No key the code reads is one of them.
