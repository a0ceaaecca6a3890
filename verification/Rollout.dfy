/** Hung-rollout detection over a history of syncs (`SetFromPodsForOverall`). */
module Rollout {
  import opened Common
  import opened Conditions
  import opened StatusManager

  datatype Workload = DaemonSet(namespace: string, name: string) | Deployment(namespace: string, name: string)

  /** The fields the controller looks at; `rest` is everything else a status comparison sees. */
  datatype WorkloadStatus =
    | DaemonSetStatus(updated: int, desired: int, unavailable: int, available: int, observed: int, rest: string)
    | DeploymentStatus(unavailable: int, available: int, observed: int, rest: string)

  /** A workload as a successful lookup shows it. */
  datatype Seen = Seen(generation: int, status: WorkloadStatus)

  predicate IsProgressing(o: Seen) {
    match o.status
    case DaemonSetStatus(updated, desired, unavailable, available, observed, _) =>
      updated < desired || unavailable > 0 || available == 0 || o.generation > observed
    case DeploymentStatus(unavailable, available, observed, _) =>
      unavailable > 0 || available == 0 || observed < o.generation
  }

  /** All its pods are updated and available, and its latest generation was seen. */
  ghost predicate RolledOut(o: Seen) {
    && o.status.unavailable <= 0 && o.status.available != 0 && o.generation <= o.status.observed
    && (o.status.DaemonSetStatus? ==> o.status.desired <= o.status.updated)
  }

  /** Ten minutes in nanoseconds. */
  const PROGRESS_TIMEOUT := 600_000_000_000

  datatype RolloutState = RolloutState(lastSeen: WorkloadStatus, lastChange: int)

  type States = map<Workload, RolloutState>

  // ---------------------------------------------------------------- one workload in one sync

  function Get<K, V>(m: map<K, V>, k: K): Option<V> {
    if k in m then Some(m[k]) else None
  }

  function StepEntry(e: Option<RolloutState>, seen: Option<Seen>, now: int): Option<RolloutState> {
    if seen.None? then e
    else if !IsProgressing(seen.value) then None
    else if e.None? || e.value.lastSeen != seen.value.status then Some(RolloutState(seen.value.status, now))
    else e
  }

  predicate HungEntry(e: Option<RolloutState>, seen: Option<Seen>, now: int) {
    && seen.Some? && IsProgressing(seen.value)
    && e.Some? && e.value.lastSeen == seen.value.status && now - e.value.lastChange > PROGRESS_TIMEOUT
  }

  /** `None` when the lookup fails. */
  type Lookups = map<Workload, Seen>

  /** One pass over a list of watched workloads. */
  method SyncList(watched: seq<Workload>, lookups: Lookups, now: int, states: States)
    returns (after: States, progressing: seq<Workload>, hung: seq<Workload>)
    ensures forall w ::
              Get(after, w) ==
                if w in watched then StepEntry(Get(states, w), Get(lookups, w), now) else Get(states, w)
    ensures forall w :: w in progressing <==> w in watched && (w !in lookups || IsProgressing(lookups[w]))
    ensures forall w :: w in hung <==> w in watched && HungEntry(Get(states, w), Get(lookups, w), now)
  {
    after, progressing, hung := states, [], [];
    for i := 0 to |watched|
      invariant forall w ::
                  Get(after, w) ==
                    if w in watched[..i] then StepEntry(Get(states, w), Get(lookups, w), now) else Get(states, w)
      invariant forall w :: w in progressing <==> w in watched[..i] && (w !in lookups || IsProgressing(lookups[w]))
      invariant forall w :: w in hung <==> w in watched[..i] && HungEntry(Get(states, w), Get(lookups, w), now)
    {
      var w := watched[i];
      ghost var before := Get(after, w);
      if w !in lookups {
        progressing := progressing + [w];
        continue;
      }
      var o := lookups[w];
      if IsProgressing(o) {
        progressing := progressing + [w];
        var exists_ := w in after;
        var st := if exists_ then after[w] else RolloutState(o.status, now);
        if !exists_ || st.lastSeen != o.status {
          st := RolloutState(o.status, now);
          after := after[w := st];
        }
        if exists_ && now - st.lastChange > PROGRESS_TIMEOUT {
          hung := hung + [w];
        }
      } else {
        after := after - {w};
      }
      assert Get(after, w) == StepEntry(before, Get(lookups, w), now);
    }
    assert watched[..|watched|] == watched;
  }

  // ---------------------------------------------------------------- streaks

  /** What one sync saw of a workload; `None` for a failed lookup or an unwatched workload. */
  datatype Observation = Observation(time: int, seen: Option<Seen>)

  ghost predicate ShowsProgressing(o: Observation, st: WorkloadStatus) {
    o.seen.Some? && !RolledOut(o.seen.value) && o.seen.value.status == st
  }

  /** From `j` on every successful lookup shows the same progressing status, beginning with `j` itself. */
  ghost predicate StreakFrom(obs: seq<Observation>, j: nat, st: WorkloadStatus) {
    && j < |obs| && ShowsProgressing(obs[j], st)
    && forall k :: j <= k < |obs| ==> obs[k].seen.None? || ShowsProgressing(obs[k], st)
  }

  /** The state stored after a history of observations. */
  ghost function EntryAfter(obs: seq<Observation>): Option<RolloutState> {
    if obs == [] then None
    else StepEntry(EntryAfter(obs[..|obs| - 1]), obs[|obs| - 1].seen, obs[|obs| - 1].time)
  }

  /** The stored state is the beginning of the current streak. */
  lemma {:induction false} EntryIsStreakStart(obs: seq<Observation>) returns (j: nat)
    ensures EntryAfter(obs).Some? ==>
      var e := EntryAfter(obs).value;
      && StreakFrom(obs, j, e.lastSeen) && obs[j].time == e.lastChange
      && forall i :: 0 <= i < j ==> !StreakFrom(obs, i, e.lastSeen)
    ensures forall i, st :: StreakFrom(obs, i, st) ==> EntryAfter(obs).Some? && EntryAfter(obs).value.lastSeen == st
  {
    j := 0;
    if obs != [] {
      var front, last := obs[..|obs| - 1], obs[|obs| - 1];
      var j0 := EntryIsStreakStart(front);
      forall i: nat, st | i < |front|
        ensures StreakFrom(obs, i, st) <==> StreakFrom(front, i, st) && (last.seen.None? || ShowsProgressing(last, st))
      {
        StreakExtends(obs, i, st);
      }
      if EntryAfter(obs) == EntryAfter(front) {
        j := j0;
      } else {
        j := |obs| - 1;
      }
    }
  }

  lemma StreakExtends(obs: seq<Observation>, i: nat, st: WorkloadStatus)
    requires i < |obs| - 1
    ensures var front, last := obs[..|obs| - 1], obs[|obs| - 1];
            StreakFrom(obs, i, st) <==> StreakFrom(front, i, st) && (last.seen.None? || ShowsProgressing(last, st))
  {
    var front := obs[..|obs| - 1];
    if StreakFrom(obs, i, st) {
      forall k | i <= k < |front| ensures front[k].seen.None? || ShowsProgressing(front[k], st) {
        assert front[k] == obs[k];
      }
    }
    if StreakFrom(front, i, st) {
      assert forall k :: i <= k < |front| ==> front[k] == obs[k];
    }
  }

  /** An unbroken streak of this status began more than ten minutes ago. */
  ghost predicate OldStreak(obs: seq<Observation>, st: WorkloadStatus, now: int) {
    exists j :: 0 <= j < |obs| && StreakFrom(obs, j, st) && now - obs[j].time > 10 * 60 * 1_000_000_000
  }

  /** A workload counts as hung exactly when the streak of its current status began more than ten minutes ago. */
  lemma HungExactly(obs: seq<Observation>, seen: Option<Seen>, now: int)
    requires forall i, k :: 0 <= i <= k < |obs| ==> obs[i].time <= obs[k].time
    ensures HungEntry(EntryAfter(obs), seen, now) <==>
            && seen.Some? && !RolledOut(seen.value)
            && OldStreak(obs, seen.value.status, now)
  {
    var start := EntryIsStreakStart(obs);
    if seen.Some? && IsProgressing(seen.value) {
      if j :| 0 <= j < |obs| && StreakFrom(obs, j, seen.value.status) && now - obs[j].time > PROGRESS_TIMEOUT {
        assert start <= j;
      }
    }
  }

  // ---------------------------------------------------------------- runs of syncs

  /** One overall sync.  `readFails`: the annotation could not be read or parsed, so the sync starts from nothing;
      always so on Kubernetes.  `writeFails`: the new annotation was not stored. */
  datatype Sync = Sync(
    now: int,
    daemonSets: seq<Workload>,
    deployments: seq<Workload>,
    lookups: Lookups,
    readFails: bool,
    writeFails: bool)

  predicate Watched(s: Sync, w: Workload) { w in s.daemonSets || w in s.deployments }

  ghost function Observed(s: Sync, w: Workload): Observation {
    Observation(s.now, if Watched(s, w) then Get(s.lookups, w) else None)
  }

  /** The observations of a workload that the stored annotation stands for. */
  ghost function Remembered(run: seq<Sync>, w: Workload): seq<Observation> {
    if run == [] then []
    else
      var prior, s := Remembered(run[..|run| - 1], w), run[|run| - 1];
      if s.writeFails then prior else (if s.readFails then [] else prior) + [Observed(s, w)]
  }

  /** One entry of the annotation as a sync loads it, and as it is afterwards. */
  ghost function Loaded(s: Sync, stored: Option<RolloutState>): Option<RolloutState> {
    if s.readFails then None else stored
  }

  ghost function Kept(s: Sync, w: Workload, stored: Option<RolloutState>): Option<RolloutState> {
    if s.writeFails then stored else StepEntry(Loaded(s, stored), Observed(s, w).seen, s.now)
  }

  /** The stored annotation, entry by entry. */
  ghost function Stored(run: seq<Sync>, w: Workload): Option<RolloutState> {
    if run == [] then None else Kept(run[|run| - 1], w, Stored(run[..|run| - 1], w))
  }

  lemma {:induction false} StoredIsRemembered(run: seq<Sync>, w: Workload)
    ensures Stored(run, w) == EntryAfter(Remembered(run, w))
  {
    if run != [] {
      var front, s := run[..|run| - 1], run[|run| - 1];
      StoredIsRemembered(front, w);
      var base := if s.readFails then [] else Remembered(front, w);
      assert (base + [Observed(s, w)])[..|base|] == base;
    }
  }

  ghost predicate ClockNonDecreasing(run: seq<Sync>) {
    forall i, k :: 0 <= i <= k < |run| ==> run[i].now <= run[k].now
  }

  /** Remembered observations are in time order and not younger than `now`. */
  ghost predicate InOrder(obs: seq<Observation>, now: int) {
    && (forall i, k :: 0 <= i <= k < |obs| ==> obs[i].time <= obs[k].time)
    && (forall i :: 0 <= i < |obs| ==> obs[i].time <= now)
  }

  lemma {:induction false} RememberedInOrder(run: seq<Sync>, w: Workload)
    requires ClockNonDecreasing(run)
    ensures run == [] ==> Remembered(run, w) == []
    ensures run != [] ==> InOrder(Remembered(run, w), run[|run| - 1].now)
  {
    if run != [] {
      var front, s := run[..|run| - 1], run[|run| - 1];
      RememberedInOrder(front, w);
      var prior := Remembered(front, w);
      if front != [] {
        assert front[|front| - 1].now <= s.now;
      }
      assert InOrder(prior, s.now);
      assert InOrder(prior + [Observed(s, w)], s.now);
    }
  }

  /** What a sync loads of the run before it. */
  ghost function LoadedObservations(run: seq<Sync>, s: Sync, w: Workload): seq<Observation> {
    if s.readFails then [] else Remembered(run, w)
  }

  /** The streak of the current progressing status, over the syncs the annotation remembers, began more than ten
      minutes ago. */
  ghost predicate StreakTooOld(run: seq<Sync>, s: Sync, w: Workload) {
    var seen := Observed(s, w).seen;
    && seen.Some? && !RolledOut(seen.value)
    && OldStreak(LoadedObservations(run, s, w), seen.value.status, s.now)
  }

  /** Main theorem: over every run of syncs with a non-decreasing clock, whatever reads and writes of the annotation
      fail, the next sync reports a workload as hung exactly when its current streak is too old. */
  lemma HungOverRuns(run: seq<Sync>, s: Sync, w: Workload)
    requires ClockNonDecreasing(run)
    ensures HungEntry(Loaded(s, Stored(run, w)), Observed(s, w).seen, s.now) <==> StreakTooOld(run, s, w)
  {
    StoredIsRemembered(run, w);
    RememberedInOrder(run, w);
    HungExactly(LoadedObservations(run, s, w), Observed(s, w).seen, s.now);
  }

  /** When no read or write fails, the annotation remembers every sync. */
  lemma {:induction false} EverythingRemembered(run: seq<Sync>, w: Workload)
    requires forall i :: 0 <= i < |run| ==> !run[i].readFails && !run[i].writeFails
    ensures |Remembered(run, w)| == |run|
    ensures forall i :: 0 <= i < |run| ==> Remembered(run, w)[i] == Observed(run[i], w)
  {
    if run != [] {
      EverythingRemembered(run[..|run| - 1], w);
    }
  }

  // ---------------------------------------------------------------- the overall sync

  function Describe(ws: seq<Workload>): seq<string> {
    seq(|ws|, i requires 0 <= i < |ws| => ws[i].name)
  }

  ghost predicate NothingInProgress(watched: seq<Workload>, lookups: Lookups) {
    forall w :: w in watched ==> w in lookups && RolledOut(lookups[w])
  }

  /** The workload is watched and not found, or not rolled out. */
  ghost predicate Behind(s: Sync, w: Workload) {
    Watched(s, w) && (w !in s.lookups || !RolledOut(s.lookups[w]))
  }

  lemma DescribedAre(ws: seq<Workload>, name: string)
    ensures name in Describe(ws) <==> exists w :: w in ws && w.name == name
  {
    if name in Describe(ws) {
      var i :| 0 <= i < |ws| && Describe(ws)[i] == name;
      assert ws[i] in ws;
    }
    if w :| w in ws && w.name == name {
      var i :| 0 <= i < |ws| && ws[i] == w;
      assert Describe(ws)[i] == name;
    }
  }

  /** The lookups and state updates of an overall sync, daemon sets first. */
  method SyncAll(s: Sync, states: States) returns (after: States, progressing: seq<Workload>, hung: seq<Workload>)
    requires WellFormed(s)
    ensures forall w :: Get(after, w) == StepEntry(Get(states, w), Observed(s, w).seen, s.now)
    ensures forall w :: w in hung <==> HungEntry(Get(states, w), Observed(s, w).seen, s.now)
    ensures forall w :: w in progressing <==> Behind(s, w)
    ensures |progressing| == 0 <==> NothingInProgress(s.daemonSets + s.deployments, s.lookups)
  {
    var mid, progressingDs, hungDs := SyncList(s.daemonSets, s.lookups, s.now, states);
    var progressingDep, hungDep;
    after, progressingDep, hungDep := SyncList(s.deployments, s.lookups, s.now, mid);
    assert forall w :: w in s.deployments ==> w !in s.daemonSets && Get(mid, w) == Get(states, w);
    hung := hungDs + hungDep;
    progressing := progressingDs + progressingDep;
    NothingProgressing(progressing, progressingDs, progressingDep, s.daemonSets, s.deployments, s.lookups);
  }

  /** If nobody else breaks it, exactly one of Available and Progressing is still True at the end of the history. */
  ghost predicate OneTrueFrom(h: seq<Version>, k: nat)
    requires k < |h|
  {
    && OneTrue(h[k])
    && ((forall j :: k < j < |h| && h[j].writer.Someone? ==> OneTrue(h[j])) ==> OneTrue(h[|h| - 1]))
  }

  /** The three status updates of an overall sync; `k` is where its overall conditions went.  On Kubernetes exactly one
      of Available and Progressing is True from there on. */
  method PublishOverall(m: Manager, progressing: seq<string>, reached: bool, hung: seq<string>, envs: seq<seq<Attempt>>)
    returns (overall: SetResult, k: nat)
    requires m.Valid() && Environments(envs)
    modifies m`history, m.failing
    ensures m.Valid() && old(m.history) <= m.history
    ensures m.failing[..] == old(m.failing[..])[POD_DEPLOYMENT := None][ROLLOUT_HUNG :=
                if |hung| > 0 then Some(DegradedCondition("RolloutHung", JoinLines(hung))) else None]
    ensures k < |m.history|
    ensures overall.Written? ==> WrittenBy(m.history[k], reached, OverallConditions(progressing, reached))
    ensures overall.Unchanged? ==> UpToDate(m.platform, m.history[k], reached, OverallConditions(progressing, reached))
    ensures overall.Written? || overall.Unchanged? ==> OverallShown(m.history[k], progressing, reached)
    ensures m.platform.Kubernetes? && reached == (|progressing| == 0) && (overall.Written? || overall.Unchanged?) ==>
              OneTrueFrom(m.history, k)
  {
    var _ := m.SetNotDegraded(POD_DEPLOYMENT, envs[0]);
    overall := m.SetConditions(progressing, reached, envs[1]);
    ghost var written := m.history;
    k := |m.history| - 1;
    if m.platform.Kubernetes? && reached == (|progressing| == 0) && (overall.Written? || overall.Unchanged?) {
      OverallExactlyOne(m.history, k, progressing);
    }
    PublishHung(m, hung, envs[2]);
    assert m.history[k] == written[k];
    if m.platform.Kubernetes? && OneTrue(m.history[k]) {
      StaysOneTrue(m.history, k, m.failing[..]);
    }
  }

  /** The last status update of an overall sync. */
  method PublishHung(m: Manager, hung: seq<string>, attempts: seq<Attempt>)
    requires m.Valid() && |attempts| == RETRIES
    modifies m`history, m.failing
    ensures m.Valid() && old(m.history) <= m.history
    ensures OwnSince(m.history, |old(m.history)|, false, [LowestFailure(m.failing[..])])
    ensures m.failing[..] == old(m.failing[..])[ROLLOUT_HUNG :=
                if |hung| > 0 then Some(DegradedCondition("RolloutHung", JoinLines(hung))) else None]
  {
    if |hung| > 0 {
      var _ := m.SetDegraded(ROLLOUT_HUNG, "RolloutHung", JoinLines(hung), attempts);
    } else {
      var _ := m.SetNotDegraded(ROLLOUT_HUNG, attempts);
    }
  }

  lemma StaysOneTrue(h: seq<Version>, k: nat, failing: seq<Option<Condition>>)
    requires OwnWritesOnLatest(Kubernetes, h) && k < |h| && OneTrue(h[k])
    requires AllFailures(failing)
    requires OwnSince(h, k + 1, false, [LowestFailure(failing)])
    ensures OneTrueFrom(h, k)
  {
    var c := LowestFailure(failing);
    LowestIsDegraded(failing);
    EndsOneTrue(h, k, c);
  }

  lemma EndsOneTrue(h: seq<Version>, k: nat, c: Condition)
    requires OwnWritesOnLatest(Kubernetes, h) && k < |h| && OneTrue(h[k])
    requires c.ctype == Degraded && OwnSince(h, k + 1, false, [c])
    ensures OneTrueFrom(h, k)
  {
    if forall j :: k < j < |h| && h[j].writer.Someone? ==> OneTrue(h[j]) {
      DegradedKeepsOneTrue(h, k, |h| - 1, c);
    }
  }

  predicate Environments(envs: seq<seq<Attempt>>) {
    |envs| == 3 && forall i :: 0 <= i < 3 ==> |envs[i]| == RETRIES
  }

  predicate WellFormed(s: Sync) {
    (forall w :: w in s.daemonSets ==> w.DaemonSet?) && (forall w :: w in s.deployments ==> w.Deployment?)
  }

  /** What the overall conditions of a sync are: Available is reached exactly when something is watched and nothing is
      in progress. */
  ghost predicate Reached(s: Sync) {
    |s.daemonSets| + |s.deployments| > 0 && NothingInProgress(s.daemonSets + s.deployments, s.lookups)
  }

  /** `SetFromPodsForOverall`, from the loaded annotation to the one to store. */
  method SetFromPodsForOverall(m: Manager, s: Sync, states: States, envs: seq<seq<Attempt>>)
    returns (after: States, progressing: seq<string>, hung: seq<Workload>, overall: SetResult, k: nat)
    requires m.Valid() && Environments(envs) && WellFormed(s)
    modifies m`history, m.failing
    ensures m.Valid() && old(m.history) <= m.history
    ensures forall w :: Get(after, w) == StepEntry(Get(states, w), Observed(s, w).seen, s.now)
    ensures forall w :: w in hung <==> HungEntry(Get(states, w), Observed(s, w).seen, s.now)
    ensures m.failing[..] == old(m.failing[..])[POD_DEPLOYMENT := None][ROLLOUT_HUNG :=
                if |hung| > 0 then Some(DegradedCondition("RolloutHung", JoinLines(Describe(hung)))) else None]
    ensures |progressing| == 0 <==> NothingInProgress(s.daemonSets + s.deployments, s.lookups)
    ensures forall name :: name in progressing <==> exists w :: Behind(s, w) && w.name == name
    ensures k < |m.history|
    ensures overall.Written? || overall.Unchanged? ==>
              OverallShown(m.history[k], progressing, Reached(s))
    ensures overall.Written? ==>
              m.history[k].writer.Operator? && (Lookup(m.history[k].writer.conds, Available).Some? <==> Reached(s))
    ensures overall.Written? ==> WrittenBy(m.history[k], Reached(s), OverallConditions(progressing, Reached(s)))
    ensures overall.Unchanged? ==>
              UpToDate(m.platform, m.history[k], Reached(s), OverallConditions(progressing, Reached(s)))
    ensures m.platform.Kubernetes? && |s.daemonSets| + |s.deployments| > 0 ==>
              (overall.Written? || overall.Unchanged? ==> OneTrueFrom(m.history, k))
  {
    var inProgress;
    after, inProgress, hung := SyncAll(s, states);
    progressing := Describe(inProgress);
    forall name ensures name in progressing <==> exists w :: Behind(s, w) && w.name == name {
      DescribedAre(inProgress, name);
    }
    var reached := |s.daemonSets| + |s.deployments| > 0 && |progressing| == 0;
    overall, k := PublishOverall(m, progressing, reached, Describe(hung), envs);
  }

  /** One sync on the stored annotation: loads it, works on the copy, and stores the outcome. */
  method SyncStored(m: Manager, stored: States, s: Sync, envs: seq<seq<Attempt>>)
    returns (kept: States, hung: seq<Workload>)
    requires m.Valid() && Environments(envs) && WellFormed(s)
    modifies m`history, m.failing
    ensures m.Valid() && old(m.history) <= m.history
    ensures forall w :: Get(kept, w) == Kept(s, w, Get(stored, w))
    ensures forall w :: w in hung <==> HungEntry(Loaded(s, Get(stored, w)), Observed(s, w).seen, s.now)
    ensures m.failing[ROLLOUT_HUNG].Some? <==> |hung| > 0
  {
    var states: States := if s.readFails then map[] else stored;
    assert forall w :: Get(states, w) == Loaded(s, Get(stored, w));
    var after, progressing, overall, k;
    after, progressing, hung, overall, k := SetFromPodsForOverall(m, s, states, envs);
    kept := if s.writeFails then stored else after;
  }

  /** Replays any run of syncs from an empty annotation: the annotation is the specified one, and each sync reports
      exactly the workloads whose streak is too old. */
  method ReplaySyncs(m: Manager, run: seq<Sync>, envs: seq<seq<seq<Attempt>>>)
    returns (stored: States, hung: seq<seq<Workload>>)
    requires m.Valid() && |envs| == |run| && ClockNonDecreasing(run)
    requires forall i :: 0 <= i < |run| ==> WellFormed(run[i]) && Environments(envs[i])
    modifies m`history, m.failing
    ensures m.Valid() && old(m.history) <= m.history
    ensures forall w :: Get(stored, w) == Stored(run, w)
    ensures |hung| == |run|
    ensures forall i, w :: 0 <= i < |run| ==> (w in hung[i] <==> StreakTooOld(run[..i], run[i], w))
    ensures |run| > 0 ==> (m.failing[ROLLOUT_HUNG].Some? <==> |hung[|run| - 1]| > 0)
  {
    stored, hung := map[], [];
    for i := 0 to |run|
      invariant m.Valid() && m.failing == old(m.failing) && old(m.history) <= m.history
      invariant forall w :: Get(stored, w) == Stored(run[..i], w)
      invariant |hung| == i
      invariant forall j, w :: 0 <= j < i ==> (w in hung[j] <==> StreakTooOld(run[..j], run[j], w))
      invariant i > 0 ==> (m.failing[ROLLOUT_HUNG].Some? <==> |hung[i - 1]| > 0)
    {
      assert run[..i + 1][..i] == run[..i];
      var found;
      ghost var before := stored;
      stored, found := SyncStored(m, stored, run[i], envs[i]);
      forall w ensures w in found <==> StreakTooOld(run[..i], run[i], w) {
        HungOverRuns(run[..i], run[i], w);
        assert Get(before, w) == Stored(run[..i], w);
      }
      hung := hung + [found];
    }
    assert run[..|run|] == run;
  }

  lemma NothingProgressing(all: seq<Workload>, a: seq<Workload>, b: seq<Workload>,
                           ds: seq<Workload>, deps: seq<Workload>, lookups: Lookups)
    requires all == a + b
    requires forall w :: w in a <==> w in ds && (w !in lookups || IsProgressing(lookups[w]))
    requires forall w :: w in b <==> w in deps && (w !in lookups || IsProgressing(lookups[w]))
    ensures |all| == 0 <==> NothingInProgress(ds + deps, lookups)
  {
    if |all| > 0 {
      assert all[0] in a || all[0] in b;
    }
  }
}
