/**
 * `syncDeployment`: upsert the spec, then poll the platform until the
 * rollout is disabled, stable or timed out. The platform's answers are a
 * finite sequence of polls, each with the time its fetch took; the sleep
 * between polls advances the clock by the poll interval.
 */
module Sync {
  import opened Wrappers
  import opened JsValue
  import opened DeploymentStatus

  const PollIntervalMs: nat := 3000
  const TimeoutMs: nat := TimeoutMinutes * 60 * 1000

  /** What one fetch of `getDeploymentWithDetails` returns. */
  datatype Snapshot = Snapshot(runs: seq<Run>, deployment: Deployment)

  /** One fetch: its answer and the milliseconds it took. */
  datatype Poll = Poll(snapshot: Snapshot, latency: nat)

  /**
   * How the loop ends. PropertyReadFailed is the TypeError of
   * `isDeploymentDisabled`; Pending means the given polls ran out before a
   * terminal answer (the source would keep polling).
   */
  datatype Outcome =
    | UpsertFailed
    | Disabled
    | Stable
    | TimedOut(lastInstanceMessage: Option<string>)
    | PropertyReadFailed
    | Pending

  /** The outcomes that make the action fail. */
  predicate IsFailure(o: Outcome) {
    o.UpsertFailed? || o.TimedOut? || o.PropertyReadFailed?
  }

  /** `!deploymentId` is false. */
  predicate UpsertSucceeded(deploymentId: Option<string>) {
    deploymentId.Some? && deploymentId.value != ""
  }

  /** Only deployments the platform has applied to the target cluster are looked at. */
  predicate Gated(s: Snapshot): (r: bool)
    ensures s.deployment.latestSpec.None? ==> !r
    ensures r <==> s.deployment.latestSpec.Some? && Truthy(s.deployment.latestSpec.value.externalApplied)
  {
    s.deployment.latestSpec.Some? && Truthy(s.deployment.latestSpec.value.externalApplied)
  }

  /**
   * What one pass of the loop decides after its fetch, `elapsed`
   * milliseconds after the upsert; None means sleep and poll again.
   */
  function Evaluate(s: Snapshot, elapsed: int): (r: Option<Outcome>)
    ensures r.Some? ==> Gated(s) && !r.value.Pending? && !r.value.UpsertFailed?
    ensures r.None? <==>
      !Gated(s) ||
      (elapsed <= TimeoutMs && IsDeploymentDisabled(s.runs, s.deployment) == Some(false) &&
       !IsDeploymentStable(s.deployment))
    ensures r.Some? && r.value.TimedOut? ==> Gated(s) && elapsed > TimeoutMs
    ensures r == Some(PropertyReadFailed) <==>
      Gated(s) && elapsed <= TimeoutMs && IsDeploymentDisabled(s.runs, s.deployment).None?
    ensures Gated(s) && elapsed > TimeoutMs ==> r == Some(TimedOut(LastInstanceMessage(s.runs)))
    ensures r == Some(Disabled) <==>
      Gated(s) && elapsed <= TimeoutMs && IsDeploymentDisabled(s.runs, s.deployment) == Some(true)
    ensures r == Some(Stable) <==>
      Gated(s) && elapsed <= TimeoutMs && IsDeploymentDisabled(s.runs, s.deployment) == Some(false) &&
      IsDeploymentStable(s.deployment)
  {
    if !Gated(s) then None
    else if elapsed > TimeoutMs then Some(TimedOut(LastInstanceMessage(s.runs)))
    else
      match IsDeploymentDisabled(s.runs, s.deployment)
      case None => Some(PropertyReadFailed)
      case Some(true) => Some(Disabled)
      case Some(false) => if IsDeploymentStable(s.deployment) then Some(Stable) else None
  }

  /**
   * The loop from a fetch onwards, the clock reading `now` when that fetch
   * starts: the outcome and how many fetches were made.
   */
  function Drive(polls: seq<Poll>, start: int, now: int): (r: (Outcome, nat))
    ensures r.1 <= |polls|
    ensures !r.0.UpsertFailed?
    ensures r.0.Pending? ==> r.1 == |polls|
    ensures !r.0.Pending? ==> r.1 >= 1
    decreases |polls|
  {
    if polls == [] then (Pending, 0)
    else
      var fetched := now + polls[0].latency;
      match Evaluate(polls[0].snapshot, fetched - start)
      case Some(o) => (o, 1)
      case None =>
        var rest := Drive(polls[1..], start, fetched + PollIntervalMs);
        (rest.0, rest.1 + 1)
  }

  /** The whole of `syncDeployment`: upsert answer, clock reading after the upsert, polls. */
  function SyncOutcome(deploymentId: Option<string>, start: int, polls: seq<Poll>): (Outcome, nat) {
    if !UpsertSucceeded(deploymentId) then (UpsertFailed, 0) else Drive(polls, start, start)
  }

  /** `syncDeployment`, with its loop: fetch, check, sleep. */
  method SyncDeployment(deploymentId: Option<string>, start: int, polls: seq<Poll>)
    returns (outcome: Outcome, fetches: nat)
    ensures (outcome, fetches) == SyncOutcome(deploymentId, start, polls)
    ensures outcome.UpsertFailed? <==> !UpsertSucceeded(deploymentId)
    ensures outcome.UpsertFailed? ==> fetches == 0
    ensures fetches <= |polls|
  {
    if !UpsertSucceeded(deploymentId) {
      return UpsertFailed, 0;
    }
    var now := start;
    fetches := 0;
    while fetches < |polls|
      invariant fetches <= |polls|
      invariant Drive(polls, start, start) ==
        (Drive(polls[fetches..], start, now).0, Drive(polls[fetches..], start, now).1 + fetches)
    {
      assert polls[fetches..][1..] == polls[fetches + 1..];
      var poll := polls[fetches];
      var runs, deployment := poll.snapshot.runs, poll.snapshot.deployment;
      now := now + poll.latency;
      fetches := fetches + 1;
      if Gated(poll.snapshot) {
        if now - start > TimeoutMs {
          return TimedOut(LastInstanceMessage(runs)), fetches;
        }
        var disabled := IsDeploymentDisabled(runs, deployment);
        if disabled.None? {
          return PropertyReadFailed, fetches;
        }
        if disabled.value {
          return Disabled, fetches;
        }
        if IsDeploymentStable(deployment) {
          return Stable, fetches;
        }
      }
      now := now + PollIntervalMs;
    }
    outcome := Pending;
  }

  /**
   * Milliseconds since the upsert at which the `k`-th fetch returns, when
   * the first one starts `base` milliseconds after the upsert.
   */
  function ElapsedAt(polls: seq<Poll>, base: int, k: nat): int
    requires k < |polls|
    decreases k
  {
    if k == 0 then base + polls[0].latency
    else ElapsedAt(polls[1..], base + polls[0].latency + PollIntervalMs, k - 1)
  }

  function LatencySum(polls: seq<Poll>): nat
    decreases |polls|
  {
    if polls == [] then 0 else polls[0].latency + LatencySum(polls[1..])
  }

  /**
   * The clock at each fetch: the fetch times so far plus one poll interval
   * per earlier pass. The first fetch follows the upsert without a sleep.
   */
  lemma {:induction false} ElapsedClosedForm(polls: seq<Poll>, base: int, k: nat)
    requires k < |polls|
    ensures ElapsedAt(polls, base, k) == base + LatencySum(polls[..k + 1]) + PollIntervalMs * k
    decreases k
  {
    if k > 0 {
      ElapsedClosedForm(polls[1..], base + polls[0].latency + PollIntervalMs, k - 1);
      assert polls[..k + 1][1..] == polls[1..][..k];
    }
  }

  /** Later fetches happen at least one poll interval after earlier ones. */
  lemma {:induction false} ElapsedSpacing(polls: seq<Poll>, base: int, j: nat, k: nat)
    requires j < k < |polls|
    ensures ElapsedAt(polls, base, k) >= ElapsedAt(polls, base, j) + PollIntervalMs * (k - j)
    ensures ElapsedAt(polls, base, k) > ElapsedAt(polls, base, j)
    decreases j
  {
    if j == 0 {
      ElapsedClosedForm(polls, base, k);
      LatencySumPrefix(polls, k);
    } else {
      ElapsedSpacing(polls[1..], base + polls[0].latency + PollIntervalMs, j - 1, k - 1);
    }
  }

  lemma {:induction false} LatencySumPrefix(polls: seq<Poll>, k: nat)
    requires k < |polls|
    ensures LatencySum(polls[..k + 1]) >= polls[0].latency
  {
    assert polls[..k + 1][0] == polls[0];
  }

  /**
   * The loop's outcome is the decision of the first poll that reaches one,
   * every earlier poll having led to a sleep; with no such poll it is
   * Pending after all polls.
   */
  lemma {:induction false} DriveIsFirstDecision(polls: seq<Poll>, start: int, now: int)
    ensures var r := Drive(polls, start, now);
      && (forall k :: 0 <= k < r.1 - 1 ==> Evaluate(polls[k].snapshot, ElapsedAt(polls, now - start, k)).None?)
      && (r.0.Pending? ==>
            forall k :: 0 <= k < |polls| ==> Evaluate(polls[k].snapshot, ElapsedAt(polls, now - start, k)).None?)
      && (!r.0.Pending? ==> Evaluate(polls[r.1 - 1].snapshot, ElapsedAt(polls, now - start, r.1 - 1)) == Some(r.0))
    decreases |polls|
  {
    if polls != [] {
      var fetched := now + polls[0].latency;
      if Evaluate(polls[0].snapshot, fetched - start).None? {
        var next := fetched + PollIntervalMs;
        DriveIsFirstDecision(polls[1..], start, next);
        var base := now - start;
        assert next - start == base + polls[0].latency + PollIntervalMs;
        forall k | 0 < k < |polls|
          ensures ElapsedAt(polls, base, k) == ElapsedAt(polls[1..], next - start, k - 1)
        {
        }
      }
    }
  }

  /** A pass whose snapshot is not yet applied to the cluster only sleeps, however late it is. */
  lemma UngatedPassSleeps(polls: seq<Poll>, start: int, now: int)
    requires polls != [] && !Gated(polls[0].snapshot)
    ensures Drive(polls, start, now) ==
      (Drive(polls[1..], start, now + polls[0].latency + PollIntervalMs).0,
       Drive(polls[1..], start, now + polls[0].latency + PollIntervalMs).1 + 1)
  {
  }

  /** If the platform never reports the spec applied, the loop never ends, neither in success nor in timeout. */
  lemma {:induction false} NeverAppliedNeverEnds(polls: seq<Poll>, start: int, now: int)
    requires forall k :: 0 <= k < |polls| ==> !Gated(polls[k].snapshot)
    ensures Drive(polls, start, now) == (Pending, |polls|)
  {
    DriveIsFirstDecision(polls, start, now);
  }

  /**
   * A timeout is reported only by an applied snapshot fetched strictly more
   * than five minutes after the upsert, and it carries that snapshot's
   * first bad-instance message.
   */
  lemma {:induction false} TimeoutOnlyPastDeadline(polls: seq<Poll>, start: int, now: int)
    requires Drive(polls, start, now).0.TimedOut?
    ensures var (o, n) := Drive(polls, start, now);
      && 1 <= n <= |polls|
      && Gated(polls[n - 1].snapshot)
      && ElapsedAt(polls, now - start, n - 1) > TimeoutMs
      && o.lastInstanceMessage == LastInstanceMessage(polls[n - 1].snapshot.runs)
  {
    DriveIsFirstDecision(polls, start, now);
  }

  /** While every fetch returns within five minutes of the upsert, the loop does not time out. */
  lemma NoTimeoutWithinDeadline(polls: seq<Poll>, start: int, now: int)
    requires polls != []
    requires ElapsedAt(polls, now - start, |polls| - 1) <= TimeoutMs
    ensures !Drive(polls, start, now).0.TimedOut?
  {
    if Drive(polls, start, now).0.TimedOut? {
      var k := TimeoutFetch(polls, start, now);
      ElapsedBoundedByLast(polls, now - start, k);
    }
  }

  /** The index of the fetch that timed out, and its clock reading. */
  lemma TimeoutFetch(polls: seq<Poll>, start: int, now: int) returns (k: nat)
    requires Drive(polls, start, now).0.TimedOut?
    ensures k < |polls| && ElapsedAt(polls, now - start, k) > TimeoutMs
  {
    TimeoutOnlyPastDeadline(polls, start, now);
    k := Drive(polls, start, now).1 - 1;
  }

  lemma ElapsedBoundedByLast(polls: seq<Poll>, base: int, k: nat)
    requires k < |polls|
    ensures ElapsedAt(polls, base, k) <= ElapsedAt(polls, base, |polls| - 1)
  {
    if k < |polls| - 1 {
      ElapsedSpacing(polls, base, k, |polls| - 1);
    }
  }

  /**
   * Success as disabled: an applied snapshot within the deadline whose
   * deployment has no runs and is disabled or scaled to zero.
   */
  lemma {:induction false} DisabledOutcome(polls: seq<Poll>, start: int, now: int)
    requires Drive(polls, start, now).0.Disabled?
    ensures var n := Drive(polls, start, now).1;
      && 1 <= n <= |polls|
      && Gated(polls[n - 1].snapshot)
      && ElapsedAt(polls, now - start, n - 1) <= TimeoutMs
      && |polls[n - 1].snapshot.runs| == 0
      && IsDeploymentDisabled(polls[n - 1].snapshot.runs, polls[n - 1].snapshot.deployment) == Some(true)
  {
    DriveIsFirstDecision(polls, start, now);
  }

  /**
   * Success as stable: an applied snapshot within the deadline that is not
   * disabled and whose latest spec the platform reports healthy.
   */
  lemma {:induction false} StableOutcome(polls: seq<Poll>, start: int, now: int)
    requires Drive(polls, start, now).0.Stable?
    ensures var n := Drive(polls, start, now).1;
      && 1 <= n <= |polls|
      && Gated(polls[n - 1].snapshot)
      && ElapsedAt(polls, now - start, n - 1) <= TimeoutMs
      && IsDeploymentDisabled(polls[n - 1].snapshot.runs, polls[n - 1].snapshot.deployment) == Some(false)
      && Truthy(polls[n - 1].snapshot.deployment.latestSpec.value.dtHealthy)
  {
    DriveIsFirstDecision(polls, start, now);
  }
}
