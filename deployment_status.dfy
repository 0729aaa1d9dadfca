/**
 * Reading the platform's view of a deployment: the disabled and stable
 * classifiers and the search for a failed instance that the timeout error
 * reports.
 */
module DeploymentStatus {
  import opened Wrappers
  import opened JsValue

  datatype Instance = Instance(state: string, stateMessage: string)

  datatype Run = Run(instances: seq<Instance>)

  /** The deployment's latest spec metadata; `data` is the spec payload as the platform stores it. */
  datatype LatestSpec = LatestSpec(externalApplied: Value, dtHealthy: Value, data: Value)

  /** `latestSpec` is None when the platform sent null or nothing. */
  datatype Deployment = Deployment(latestSpec: Option<LatestSpec>)

  const TimeoutMinutes: nat := 5

  const BadInstanceStates: seq<string> := ["errored", "failed"]

  predicate IsBad(i: Instance) {
    i.state in BadInstanceStates
  }

  predicate HasBadInstance(r: Run) {
    exists j :: 0 <= j < |r.instances| && IsBad(r.instances[j])
  }

  /** `instances.find(...)`: the index of the first instance in a bad state. */
  function FirstBadInstance(instances: seq<Instance>): (r: Option<nat>)
    ensures r.None? <==> forall j :: 0 <= j < |instances| ==> !IsBad(instances[j])
    ensures r.Some? ==> r.value < |instances| && IsBad(instances[r.value])
    ensures r.Some? ==> forall j :: 0 <= j < r.value ==> !IsBad(instances[j])
    decreases |instances|
  {
    if instances == [] then None
    else if IsBad(instances[0]) then Some(0)
    else
      match FirstBadInstance(instances[1..])
      case None => None
      case Some(j) => Some(j + 1)
  }

  /** `runs.find(...)`: the index of the first run that has an instance in a bad state. */
  function FirstBadRun(runs: seq<Run>): (r: Option<nat>)
    ensures r.None? <==> forall i :: 0 <= i < |runs| ==> !HasBadInstance(runs[i])
    ensures r.Some? ==> r.value < |runs| && HasBadInstance(runs[r.value])
    ensures r.Some? ==> forall i :: 0 <= i < r.value ==> !HasBadInstance(runs[i])
    decreases |runs|
  {
    if runs == [] then None
    else if FirstBadInstance(runs[0].instances).Some? then Some(0)
    else
      match FirstBadRun(runs[1..])
      case None => None
      case Some(i) => Some(i + 1)
  }

  /**
   * The instance message the timeout error carries (`throwBadDeployError`):
   * that of the first bad instance of the first run that has one.
   */
  function LastInstanceMessage(runs: seq<Run>): (m: Option<string>)
    ensures m.None? <==> forall i :: 0 <= i < |runs| ==> !HasBadInstance(runs[i])
    ensures m.Some? ==>
      exists i, j :: 0 <= i < |runs| && 0 <= j < |runs[i].instances| &&
        IsBad(runs[i].instances[j]) && m.value == runs[i].instances[j].stateMessage &&
        (forall i' :: 0 <= i' < i ==> !HasBadInstance(runs[i'])) &&
        (forall j' :: 0 <= j' < j ==> !IsBad(runs[i].instances[j']))
  {
    match FirstBadRun(runs)
    case None => None
    case Some(i) =>
      var j := FirstBadInstance(runs[i].instances).value;
      Some(runs[i].instances[j].stateMessage)
  }

  function DecimalText(n: nat): string
    decreases n
  {
    var digit := ["0", "1", "2", "3", "4", "5", "6", "7", "8", "9"][n % 10];
    if n < 10 then digit else DecimalText(n / 10) + digit
  }

  const TimeoutText := "Deployment update timed out after " + DecimalText(TimeoutMinutes) + " minutes."

  const InstanceMessageLabel := "Last instance message: "

  /**
   * The text of the error `throwBadDeployError` throws. With an instance
   * message it is a multi-line template literal, so it starts with a line
   * break and indentation.
   */
  function TimeoutMessage(last: Option<string>): (r: string)
    ensures last.None? ==> r == TimeoutText
    ensures last.Some? ==> OccursAt(r, TimeoutText, 7)
    ensures last.Some? ==> OccursAt(r, InstanceMessageLabel + last.value, 14 + |TimeoutText|)
    ensures last.Some? ==> r[..7] == "\n      " && r[7 + |TimeoutText|..14 + |TimeoutText|] == "\n      "
    ensures last.Some? ==> r[|r| - 5..] == "\n    "
  {
    match last
    case None => TimeoutText
    case Some(m) =>
      var indent := "\n      ";
      var r := indent + TimeoutText + indent + InstanceMessageLabel + m + "\n    ";
      assert r == (indent + TimeoutText + indent) + (InstanceMessageLabel + m) + "\n    ";
      assert r[|indent|..|indent| + |TimeoutText|] == TimeoutText;
      r
  }

  predicate OccursAt(s: string, t: string, k: int) {
    0 <= k <= |s| - |t| && s[k..k + |t|] == t
  }

  ghost predicate Contains(s: string, t: string) {
    exists k :: OccursAt(s, t, k)
  }

  /**
   * The timeout error always names the timeout, and names the instance
   * message when there is one.
   */
  lemma TimeoutMessageMentions(last: Option<string>)
    ensures Contains(TimeoutMessage(last), TimeoutText)
    ensures last.Some? ==> Contains(TimeoutMessage(last), InstanceMessageLabel + last.value)
    ensures last.None? ==> TimeoutMessage(last) == TimeoutText
  {
    var msg := TimeoutMessage(last);
    if last.None? {
      assert OccursAt(msg, TimeoutText, 0);
    } else {
      assert OccursAt(msg, TimeoutText, 7);
      assert OccursAt(msg, InstanceMessageLabel + last.value, 14 + |TimeoutText|);
    }
  }

  /** `deployment?.latestSpec?.data`. */
  function SpecData(d: Deployment): Value {
    match d.latestSpec
    case None => Undefined
    case Some(ls) => ls.data
  }

  /** A value that `"resources" in v` throws on once `v` passed the truthiness test. */
  predicate TruthyPrimitive(v: Value) {
    Truthy(v) && (v.Str? || v.Num? || v.Bool?)
  }

  /** `!x.replicas`, where reading `replicas` off null or undefined throws. */
  function ReplicasFalsy(resources: Value): Option<bool> {
    match Member(resources, "replicas")
    case None => None
    case Some(replicas) => Some(!Truthy(replicas))
  }

  /**
   * `isDeploymentDisabled`: no runs, and the platform's spec has resources
   * and is either explicitly disabled or scaled to no replicas. None stands
   * for the TypeError JavaScript throws when `data` is a truthy primitive or
   * `resources` is null.
   */
  function IsDeploymentDisabled(runs: seq<Run>, d: Deployment): (r: Option<bool>)
    ensures r == Some(true) <==>
      && |runs| == 0
      && SpecData(d).Obj?
      && "resources" in SpecData(d).fields
      && (Get(SpecData(d).fields, "enabled") == Bool(false) ||
          ReplicasFalsy(SpecData(d).fields["resources"]) == Some(true))
    ensures !Truthy(SpecData(d)) || SpecData(d).Arr? ==> r == Some(false)
    ensures SpecData(d).Obj? && "resources" !in SpecData(d).fields ==> r == Some(false)
    ensures |runs| > 0 && !TruthyPrimitive(SpecData(d)) ==> r == Some(false)
    ensures r.None? <==>
      || TruthyPrimitive(SpecData(d))
      || (&& |runs| == 0
          && SpecData(d).Obj?
          && "resources" in SpecData(d).fields
          && Get(SpecData(d).fields, "enabled") != Bool(false)
          && ReplicasFalsy(SpecData(d).fields["resources"]).None?)
  {
    var data := SpecData(d);
    if !Truthy(data) then Some(false)
    else
      match HasProperty(data, "resources")
      case None => None
      case Some(hasResources) =>
        if !hasResources then Some(false)
        else if |runs| != 0 then Some(false)
        else if Member(data, "enabled") == Some(Bool(false)) then Some(true)
        else ReplicasFalsy(data.fields["resources"])
  }

  /** `isDeploymentStable`: the platform reports the latest spec healthy. */
  predicate IsDeploymentStable(d: Deployment): (r: bool)
    ensures d.latestSpec.None? ==> !r
    ensures r <==> d.latestSpec.Some? && Truthy(d.latestSpec.value.dtHealthy)
  {
    d.latestSpec.Some? && Truthy(d.latestSpec.value.dtHealthy)
  }
}
