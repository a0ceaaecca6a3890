/** The status manager: a priority array of failures published through a retried
    read-modify-write of a versioned object that others write too. */
module StatusManager {
  import opened Common
  import opened Conditions

  /** ClusterConfig, OperatorConfig, PodDeployment, RolloutHung and ClusterNode. */
  const LEVELS := 5
  const POD_DEPLOYMENT := 2
  const ROLLOUT_HUNG := 3
  const CLUSTER_NODE := 4

  /** The published status; `versions` is only used by the ClusterOperator. */
  datatype Published = Published(conditions: Conditions, versions: seq<string>)

  const VERSION := "operator version"

  // ---------------------------------------------------------------- what one write wants

  const STARTUP := Condition(Available, IsFalse, "Startup", "The network is starting up", 0)
  const UPGRADEABLE := Condition(Upgradeable, IsTrue, "", "", 0)

  predicate ShowsTrue(cs: Conditions, t: ConditionType) {
    Lookup(cs, t).Some? && Lookup(cs, t).value.status.IsTrue?
  }

  function WithStartup(cs: Conditions, now: int): Conditions {
    if Lookup(cs, Available).None? && ShowsTrue(cs, Progressing) then SetCondition(cs, STARTUP, now) else cs
  }

  /** The status `set` computes from the version it read.  OpenShift edits that version; Kubernetes starts from
      an empty list on every call and merges the outcome. */
  function Desired(p: Platform, base: Published, reached: bool, conds: Conditions, now: int): Published {
    match p
    case OpenShift =>
      Published(SetCondition(WithStartup(Combine(base.conditions, conds, now), now), UPGRADEABLE, now),
                if reached then [VERSION] else base.versions)
    case Kubernetes =>
      Published(Combine(base.conditions, WithStartup(Combine([], conds, now), now), now), base.versions)
  }

  /** The condition lists the manager passes to `set`: Degraded alone, or Progressing with perhaps Available=True. */
  ghost predicate OwnConditions(conds: Conditions) {
    || (|conds| == 1 && conds[0].ctype in {Degraded, Progressing})
    || (|conds| == 2 && conds[0].ctype == Progressing && conds[1].ctype == Available && conds[1].status.IsTrue?)
  }

  // ---------------------------------------------------------------- the versioned object

  datatype Writer = Someone | Operator(reached: bool, conds: Conditions, now: int)

  /** One version of the object; `None` when it does not exist. */
  datatype Version = Version(writer: Writer, status: Option<Published>)

  function BaseOf(v: Version): Published {
    if v.status.Some? then v.status.value else Published([], [])
  }

  /** Every version the operator wrote is its update of the version right before it. */
  ghost predicate OwnWritesOnLatest(p: Platform, h: seq<Version>) {
    forall k :: 0 < k < |h| ==> OnLatest(p, h, k)
  }

  ghost predicate OnLatest(p: Platform, h: seq<Version>, k: nat)
    requires 0 < k < |h|
  {
    h[k].writer.Operator? ==> UpdateOf(p, h[k - 1], h[k])
  }

  ghost predicate UpdateOf(p: Platform, prev: Version, v: Version)
    requires v.writer.Operator?
  {
    && OwnConditions(v.writer.conds)
    && v.status == Some(Desired(p, BaseOf(prev), v.writer.reached, v.writer.conds, v.writer.now))
  }

  /** What happens around one attempt: writes by others before the read and between read and write,
      and failures of the two calls themselves. */
  datatype Attempt = Attempt(
    before: seq<Option<Published>>,
    readFails: bool,
    between: seq<Option<Published>>,
    writeFails: bool,
    now: int)

  const RETRIES := 4

  /** No call fails and nobody deletes the object. */
  ghost predicate Calm(att: Attempt) {
    && !att.readFails && !att.writeFails
    && (forall i :: 0 <= i < |att.before| ==> att.before[i].Some?)
    && (forall i :: 0 <= i < |att.between| ==> att.between[i].Some?)
  }

  /** All attempts are calm, and in one of them nobody writes between the read and the write. */
  ghost predicate EnoughAttempts(attempts: seq<Attempt>) {
    && (forall i :: 0 <= i < |attempts| ==> Calm(attempts[i]))
    && exists i :: 0 <= i < |attempts| && |attempts[i].between| == 0
  }

  datatype SetResult = Written | Unchanged | SetFailed

  function ByOthers(statuses: seq<Option<Published>>): seq<Version> {
    seq(|statuses|, i requires 0 <= i < |statuses| => Version(Someone, statuses[i]))
  }

  lemma OthersKeepOwnWrites(p: Platform, h: seq<Version>, statuses: seq<Option<Published>>)
    requires OwnWritesOnLatest(p, h)
    ensures OwnWritesOnLatest(p, h + ByOthers(statuses))
  {
    var r := h + ByOthers(statuses);
    forall k | 0 < k < |r| ensures OnLatest(p, r, k) {
      if k < |h| {
        assert OnLatest(p, h, k);
      }
    }
  }

  // ---------------------------------------------------------------- what own writes keep

  /** The startup condition is added: Available is missing from the list that `set` edits, which is the version it read
      on OpenShift and an empty one on Kubernetes, and Progressing is True there after the merge. */
  ghost predicate StartsUp(p: Platform, base: Published, conds: Conditions) {
    && Lookup(conds, Available).None?
    && (p.OpenShift? ==> Lookup(base.conditions, Available).None?)
    && (if Lookup(conds, Progressing).Some? then ShowsTrue(conds, Progressing)
        else p.OpenShift? && ShowsTrue(base.conditions, Progressing))
  }

  /** The types an own write may touch: those it names, Available when the startup condition is added, and Upgradeable
      on OpenShift. */
  ghost predicate Touches(p: Platform, base: Published, conds: Conditions, t: ConditionType) {
    || Named(conds, t)
    || (t == Available && StartsUp(p, base, conds))
    || (p.OpenShift? && t == Upgradeable)
  }

  /** What an own write makes of one condition type. */
  ghost function AfterWrite(p: Platform, base: Published, conds: Conditions, now: int, t: ConditionType)
    : Option<Condition>
  {
    var was, given := Lookup(base.conditions, t), Lookup(conds, t);
    if given.Some? then Some(Merged(was, given.value, now))
    else if t == Available && StartsUp(p, base, conds) then Some(Merged(was, STARTUP, now))
    else if t == Upgradeable && p.OpenShift? then Some(Merged(was, UPGRADEABLE, now))
    else was
  }

  lemma OwnUnique(conds: Conditions)
    requires OwnConditions(conds)
    ensures UniqueTypes(conds) && Lookup(conds, Upgradeable).None?
  {
  }

  /** Own conditions are applied to the version that was replaced; what happens to every other type. */
  lemma DesiredLookup(p: Platform, base: Published, reached: bool, conds: Conditions, now: int, t: ConditionType)
    requires OwnConditions(conds)
    ensures Lookup(Desired(p, base, reached, conds, now).conditions, t) == AfterWrite(p, base, conds, now, t)
  {
    if p.OpenShift? {
      DesiredLookupOc(base, reached, conds, now, t);
    } else {
      OwnUnique(conds);
      BuiltUnique(conds, now);
      BuiltLookup(base, conds, now, t);
      CombineAt(base.conditions, WithStartup(Combine([], conds, now), now), now, t);
    }
  }

  lemma DesiredLookupOc(base: Published, reached: bool, conds: Conditions, now: int, t: ConditionType)
    requires OwnConditions(conds)
    ensures Lookup(Desired(OpenShift, base, reached, conds, now).conditions, t) ==
            AfterWrite(OpenShift, base, conds, now, t)
  {
    var merged := Combine(base.conditions, conds, now);
    OwnUnique(conds);
    CombineAt(base.conditions, conds, now, t);
    StartsUpOc(base, conds, now);
    StartedLookup(merged, now, t);
    SetLookup(WithStartup(merged, now), UPGRADEABLE, now, t);
  }

  lemma StartedLookup(cs: Conditions, now: int, t: ConditionType)
    ensures Lookup(WithStartup(cs, now), t) ==
            if t == Available && Lookup(cs, Available).None? && ShowsTrue(cs, Progressing)
            then Some(Merged(None, STARTUP, now)) else Lookup(cs, t)
  {
    SetLookup(cs, STARTUP, now, t);
  }

  lemma StartsUpOc(base: Published, conds: Conditions, now: int)
    requires OwnConditions(conds)
    ensures var merged := Combine(base.conditions, conds, now);
            Lookup(merged, Available).None? && ShowsTrue(merged, Progressing) <==> StartsUp(OpenShift, base, conds)
  {
    OwnUnique(conds);
    CombineAt(base.conditions, conds, now, Available);
    CombineAt(base.conditions, conds, now, Progressing);
  }

  /** On Kubernetes the list is built from nothing, so only the given Progressing condition can start it up. */
  lemma BuiltLookup(base: Published, conds: Conditions, now: int, t: ConditionType)
    requires OwnConditions(conds)
    ensures Lookup(WithStartup(Combine([], conds, now), now), t) ==
            if Lookup(conds, t).Some? then Some(Lookup(conds, t).value.(since := now))
            else if t == Available && StartsUp(Kubernetes, base, conds) then Some(STARTUP.(since := now))
            else None
  {
    OwnUnique(conds);
    CombineAt([], conds, now, t);
    CombineAt([], conds, now, Available);
    CombineAt([], conds, now, Progressing);
    SetLookup(Combine([], conds, now), STARTUP, now, t);
  }

  lemma BuiltUnique(conds: Conditions, now: int)
    ensures UniqueTypes(WithStartup(Combine([], conds, now), now))
  {
    CombineShape([], conds, now);
    SetShape(Combine([], conds, now), STARTUP, now);
  }

  /** Once Available is True, no own write on OpenShift makes it otherwise. */
  lemma AvailableStays(base: Published, reached: bool, conds: Conditions, now: int)
    requires OwnConditions(conds) && ShowsTrue(base.conditions, Available)
    ensures ShowsTrue(Desired(OpenShift, base, reached, conds, now).conditions, Available)
  {
    DesiredLookup(OpenShift, base, reached, conds, now, Available);
  }

  ghost predicate AvailableTrue(v: Version) {
    v.status.Some? && ShowsTrue(v.status.value.conditions, Available)
  }

  /** If Available was True before version `k` and somebody else wrote `k`, it still is. */
  ghost predicate OthersKeepAvailable(h: seq<Version>, k: nat)
    requires 0 < k < |h|
  {
    h[k].writer.Someone? && AvailableTrue(h[k - 1]) ==> AvailableTrue(h[k])
  }

  /** In every history on OpenShift: from a version with Available=True on, it stays so as long as others leave it. */
  lemma {:induction false} AvailableStaysInHistory(h: seq<Version>, from: nat, to: nat)
    requires OwnWritesOnLatest(OpenShift, h) && from <= to < |h| && AvailableTrue(h[from])
    requires forall k :: from < k <= to ==> OthersKeepAvailable(h, k)
    ensures AvailableTrue(h[to])
  {
    if from < to {
      AvailableStaysInHistory(h, from, to - 1);
      assert OthersKeepAvailable(h, to);
      if h[to].writer.Operator? {
        OwnWriteKeepsAvailable(h, to);
      }
    }
  }

  lemma OwnWriteKeepsAvailable(h: seq<Version>, k: nat)
    requires OwnWritesOnLatest(OpenShift, h) && 0 < k < |h| && h[k].writer.Operator? && AvailableTrue(h[k - 1])
    ensures AvailableTrue(h[k])
  {
    var w := h[k].writer;
    assert OnLatest(OpenShift, h, k);
    AvailableStays(BaseOf(h[k - 1]), w.reached, w.conds, w.now);
  }

  /** In every history: a version the operator wrote applies its own conditions to the version it replaced, and leaves
      every type that the write does not touch exactly as it was there. */
  lemma OwnWriteLeavesOthers(p: Platform, h: seq<Version>, k: nat, t: ConditionType)
    requires OwnWritesOnLatest(p, h) && 0 < k < |h| && h[k].writer.Operator?
    ensures h[k].status.Some?
    ensures var base, w, after := BaseOf(h[k - 1]), h[k].writer, Lookup(h[k].status.value.conditions, t);
            && after == AfterWrite(p, base, w.conds, w.now, t)
            && (!Touches(p, base, w.conds, t) ==> after == Lookup(base.conditions, t))
            && (forall i :: 0 <= i < |w.conds| && w.conds[i].ctype == t ==>
                  after == Some(Merged(Lookup(base.conditions, t), w.conds[i], w.now)))
    ensures h[k].status.value.versions ==
            if p.OpenShift? && h[k].writer.reached then ["operator version"] else BaseOf(h[k - 1]).versions
  {
    var w := h[k].writer;
    assert OnLatest(p, h, k);
    OwnUnique(w.conds);
    DesiredLookup(p, BaseOf(h[k - 1]), w.reached, w.conds, w.now, t);
    forall i | 0 <= i < |w.conds| && w.conds[i].ctype == t ensures Lookup(w.conds, t) == Some(w.conds[i]) {
      LookupGiven(w.conds, i);
    }
    if !Named(w.conds, t) {
      assert Lookup(w.conds, t).None?;
    }
  }

  /** What the startup condition and Upgradeable look like when an own write adds them. */
  lemma OwnWriteAdds(p: Platform, h: seq<Version>, k: nat)
    requires OwnWritesOnLatest(p, h) && 0 < k < |h| && h[k].writer.Operator?
    ensures h[k].status.Some?
    ensures StartsUp(p, BaseOf(h[k - 1]), h[k].writer.conds) ==>
              var c := Lookup(h[k].status.value.conditions, Available);
              c.Some? && c.value.status.IsFalse? && c.value.reason == "Startup"
    ensures p.OpenShift? ==> ShowsTrue(h[k].status.value.conditions, Upgradeable)
  {
    OwnWriteLeavesOthers(p, h, k, Available);
    OwnWriteLeavesOthers(p, h, k, Upgradeable);
    assert OnLatest(p, h, k);
    OwnUnique(h[k].writer.conds);
  }

  // ---------------------------------------------------------------- failures by level

  const NOT_DEGRADED := Condition(Degraded, IsFalse, "", "", 0)

  function DegradedCondition(reason: string, message: string): Condition {
    Condition(Degraded, IsTrue, reason, message, 0)
  }

  /** What syncDegraded publishes: the failure of the lowest failing level. */
  function LowestFailure(failing: seq<Option<Condition>>): Condition {
    if failing == [] then NOT_DEGRADED
    else if failing[0].Some? then failing[0].value
    else LowestFailure(failing[1..])
  }

  /** Every entry is a failure: Degraded and True. */
  ghost predicate AllFailures(failing: seq<Option<Condition>>) {
    forall i :: 0 <= i < |failing| && failing[i].Some? ==>
      failing[i].value.ctype == Degraded && failing[i].value.status.IsTrue?
  }

  lemma {:induction false} LowestIsDegraded(failing: seq<Option<Condition>>)
    requires AllFailures(failing)
    ensures LowestFailure(failing).ctype == Degraded
  {
    if failing != [] {
      LowestIsDegraded(failing[1..]);
    }
  }

  lemma {:induction false} LowestFailureIs(failing: seq<Option<Condition>>, i: nat)
    requires i <= |failing| && forall j :: 0 <= j < i ==> failing[j].None?
    ensures i < |failing| && failing[i].Some? ==> LowestFailure(failing) == failing[i].value
    ensures i == |failing| ==> LowestFailure(failing) == NOT_DEGRADED
  {
    if i > 0 {
      LowestFailureIs(failing[1..], i - 1);
    }
  }

  /** Degraded is there, and True with the reason and message of the lowest failing level if some level fails, and False
      if none does. */
  ghost predicate DegradedExactly(v: Version, failing: seq<Option<Condition>>) {
    && v.status.Some? && Lookup(v.status.value.conditions, Degraded).Some?
    && var c := Lookup(v.status.value.conditions, Degraded).value;
    && ((forall i :: 0 <= i < |failing| ==> failing[i].None?) ==> c.status.IsFalse?)
    && (forall i :: 0 <= i < |failing| && failing[i].Some? && (forall j :: 0 <= j < i ==> failing[j].None?) ==>
          c.status.IsTrue? && c.reason == failing[i].value.reason && c.message == failing[i].value.message)
  }

  lemma LowestIsShown(v: Version, failing: seq<Option<Condition>>)
    requires AllFailures(failing) && Shows(v, [LowestFailure(failing)])
    ensures DegradedExactly(v, failing)
  {
    var lowest := LowestFailure(failing);
    LowestIsDegraded(failing);
    assert !Differs(Lookup(v.status.value.conditions, [lowest][0].ctype), [lowest][0]);
    if forall i :: 0 <= i < |failing| ==> failing[i].None? {
      LowestFailureIs(failing, |failing|);
    }
    forall i | 0 <= i < |failing| && failing[i].Some? && forall j :: 0 <= j < i ==> failing[j].None?
      ensures lowest == failing[i].value
    {
      LowestFailureIs(failing, i);
    }
  }

  lemma LookupGiven(conds: Conditions, i: nat)
    requires UniqueTypes(conds) && i < |conds|
    ensures Lookup(conds, conds[i].ctype) == Some(conds[i])
  {
    IndexUnique(conds, conds[i].ctype, i);
  }

  /** The version shows these conditions' status, reason and message. */
  ghost predicate Shows(v: Version, conds: Conditions) {
    && v.status.Some?
    && forall i :: 0 <= i < |conds| ==> !Differs(Lookup(v.status.value.conditions, conds[i].ctype), conds[i])
  }

  lemma DesiredShows(p: Platform, base: Published, reached: bool, conds: Conditions, now: int)
    requires OwnConditions(conds)
    ensures Shows(Version(Someone, Some(Desired(p, base, reached, conds, now))), conds)
  {
    forall i | 0 <= i < |conds|
      ensures !Differs(Lookup(Desired(p, base, reached, conds, now).conditions, conds[i].ctype), conds[i])
    {
      OwnUnique(conds);
      LookupGiven(conds, i);
      DesiredLookup(p, base, reached, conds, now, conds[i].ctype);
    }
  }

  /** Available and Progressing are both there and exactly one of them is True. */
  ghost predicate ExactlyOne(cs: Conditions) {
    && Lookup(cs, Available).Some? && Lookup(cs, Progressing).Some?
    && (ShowsTrue(cs, Available) <==> !ShowsTrue(cs, Progressing))
  }

  /** On Kubernetes a write of the overall conditions leaves exactly one of Available and Progressing True. */
  lemma ExactlyOneTrue(base: Published, reached: bool, conds: Conditions, now: int)
    requires OwnConditions(conds) && conds[0].ctype == Progressing
    requires (|conds| == 2) == conds[0].status.IsFalse? && !conds[0].status.IsUnknown?
    ensures ExactlyOne(Desired(Kubernetes, base, reached, conds, now).conditions)
  {
    OwnUnique(conds);
    LookupGiven(conds, 0);
    if |conds| == 2 {
      LookupGiven(conds, 1);
    }
    DesiredLookup(Kubernetes, base, reached, conds, now, Available);
    DesiredLookup(Kubernetes, base, reached, conds, now, Progressing);
  }

  // ---------------------------------------------------------------- implementation

  method AddStartup(list: ConditionList, now: int)
    modifies list
    ensures list.items == WithStartup(old(list.items), now)
  {
    var p := list.Find(Progressing);
    var a := list.Find(Available);
    if a == |list.items| && p < |list.items| && list.items[p].status.IsTrue? {
      list.SetStatusCondition(STARTUP, now);
    }
  }

  /** The status to store, and whether it differs from the one read. */
  method Compute(p: Platform, base: Published, reached: bool, conds: Conditions, now: int)
    returns (desired: Published, changed: bool)
    requires OwnConditions(conds)
    ensures desired == Desired(p, base, reached, conds, now)
    ensures changed <==> desired != base
  {
    if p.OpenShift? {
      var list := new ConditionList(base.conditions);
      var _ := list.CombineConditions(conds, now);
      AddStartup(list, now);
      list.SetStatusCondition(UPGRADEABLE, now);
      desired := Published(list.items, if reached then [VERSION] else base.versions);
      changed := desired != base;
    } else {
      var list := new ConditionList([]);
      var _ := list.CombineConditions(conds, now);
      AddStartup(list, now);
      BuiltUnique(conds, now);
      var crd := new ConditionList(base.conditions);
      changed := crd.CombineConditions(list.items, now);
      desired := Published(crd.items, base.versions);
    }
  }

  class Manager {
    const platform: Platform
    var failing: array<Option<Condition>>
    var history: seq<Version>

    ghost predicate Valid()
      reads this, failing
    {
      && failing.Length == LEVELS
      && AllFailures(failing[..])
      && |history| > 0
      && OwnWritesOnLatest(platform, history)
    }

    ghost function Latest(): Version
      requires |history| > 0
      reads this
    {
      history[|history| - 1]
    }

    constructor (platform: Platform, status: Option<Published>)
      ensures Valid() && fresh(failing) && failing[..] == seq(LEVELS, _ => None)
      ensures this.platform == platform && history == [Version(Someone, status)]
    {
      this.platform := platform;
      failing := new Option<Condition>[LEVELS](_ => None);
      history := [Version(Someone, status)];
    }

    method OthersWrite(statuses: seq<Option<Published>>)
      requires Valid()
      modifies this`history
      ensures Valid() && history == old(history) + ByOthers(statuses)
      ensures NoOwnSince(history, |old(history)|)
      ensures old(Latest()).status.Some? && (forall i :: 0 <= i < |statuses| ==> statuses[i].Some?) ==>
                Latest().status.Some?
    {
      OthersKeepOwnWrites(platform, history, statuses);
      history := history + ByOthers(statuses);
    }

    /** Stores the status computed from the latest version. */
    method StoreOwn(reached: bool, conds: Conditions, now: int, ghost base: Published, desired: Published)
      requires Valid() && OwnConditions(conds)
      requires base == BaseOf(Latest()) && desired == Desired(platform, base, reached, conds, now)
      modifies this`history
      ensures Valid() && |history| == |old(history)| + 1 && old(history) <= history
      ensures WrittenBy(Latest(), reached, conds) && Shows(Latest(), conds)
    {
      var v := Version(Operator(reached, conds, now), Some(desired));
      OwnWriteOnLatest(platform, history, v);
      DesiredShows(platform, base, reached, conds, now);
      history := history + [v];
    }

    /** The write of a status computed from `read`; `None` on a conflict with a version written since. */
    method Commit(read: Version, latest: bool, desired: Published, reached: bool, conds: Conditions, now: int)
      returns (r: Option<SetResult>)
      requires Valid() && OwnConditions(conds) && (latest ==> read == Latest())
      requires desired == Desired(platform, BaseOf(read), reached, conds, now)
      modifies this`history
      ensures Valid() && old(history) <= history && |history| <= |old(history)| + 1
      ensures r == Some(Written) ==>
                |old(history)| < |history| && WrittenBy(Latest(), reached, conds) && Shows(Latest(), conds)
      ensures r != Some(Written) ==> history == old(history)
      ensures r != Some(Unchanged)
      ensures latest ==> r == Some(Written)
      ensures read.status.Some? && old(Latest()).status.Some? ==> r != Some(SetFailed)
    {
      var current := history[|history| - 1];
      if latest || (read.status.None? && current.status.None?) {
        StoreOwn(reached, conds, now, BaseOf(read), desired);
        return Some(Written);
      }
      if read.status.None? || current.status.None? {
        // Create of an existing object, or Update of a deleted one: not a conflict
        return Some(SetFailed);
      }
      r := None;
    }

    /** The write half of an attempt, after others wrote in between; `None` on a conflict. */
    method WriteBack(read: Version, desired: Published, reached: bool, conds: Conditions, att: Attempt)
      returns (r: Option<SetResult>)
      requires Valid() && OwnConditions(conds) && read == Latest()
      requires desired == Desired(platform, BaseOf(read), reached, conds, att.now)
      modifies this`history
      ensures Valid() && old(history) <= history && OwnSince(history, |old(history)|, reached, conds)
      ensures r != Some(Unchanged)
      ensures r == Some(Written) ==>
                |old(history)| < |history| && WrittenBy(Latest(), reached, conds) && Shows(Latest(), conds)
      ensures Calm(att) && read.status.Some? ==>
                && Latest().status.Some? && r != Some(SetFailed)
                && (|att.between| == 0 ==> r == Some(Written))
    {
      OthersWrite(att.between);
      if att.writeFails {
        return Some(SetFailed);
      }
      ghost var mid := history;
      r := Commit(read, |att.between| == 0, desired, reached, conds, att.now);
      OwnAppended(mid, history, |old(history)|, reached, conds);
    }

    /** One read-modify-write; `None` on a conflict. */
    method TryOnce(reached: bool, conds: Conditions, att: Attempt) returns (r: Option<SetResult>)
      requires Valid() && OwnConditions(conds)
      modifies this`history
      ensures Valid() && old(history) <= history && OwnSince(history, |old(history)|, reached, conds)
      ensures r == Some(Written) ==> |old(history)| < |history| && WrittenBy(Latest(), reached, conds)
      ensures r == Some(Unchanged) ==> UpToDate(platform, Latest(), reached, conds)
      ensures r == Some(Written) || r == Some(Unchanged) ==> Shows(Latest(), conds)
      ensures Calm(att) && old(Latest()).status.Some? ==>
                Latest().status.Some? && r != Some(SetFailed) && (|att.between| == 0 ==> r.Some?)
    {
      OthersWrite(att.before);
      if att.readFails {
        return Some(SetFailed);
      }
      var read := history[|history| - 1];
      if platform.Kubernetes? && read.status.None? {
        return Some(SetFailed);
      }
      var desired, changed := Compute(platform, BaseOf(read), reached, conds, att.now);
      if !changed && read.status.Some? {
        DesiredShows(platform, BaseOf(read), reached, conds, att.now);
        return Some(Unchanged);
      }
      r := WriteBack(read, desired, reached, conds, att);
    }

    /** `set`: retries on conflicts and gives up on every other error.  While the object is there and no call fails, one
        attempt without interference is enough. */
    method Set(reached: bool, conds: Conditions, attempts: seq<Attempt>) returns (r: SetResult)
      requires Valid() && OwnConditions(conds) && |attempts| == RETRIES
      modifies this`history
      ensures Valid() && old(history) <= history && OwnSince(history, |old(history)|, reached, conds)
      ensures r.Written? ==> |old(history)| < |history| && WrittenBy(Latest(), reached, conds)
      ensures r.Unchanged? ==> UpToDate(platform, Latest(), reached, conds)
      ensures r.Written? || r.Unchanged? ==> Shows(Latest(), conds)
      ensures old(Latest()).status.Some? && EnoughAttempts(attempts) ==> r.Written? || r.Unchanged?
    {
      for i := 0 to RETRIES
        invariant Valid() && old(history) <= history && OwnSince(history, |old(history)|, reached, conds)
        invariant old(Latest()).status.Some? && EnoughAttempts(attempts) ==>
                    Latest().status.Some? && forall j :: 0 <= j < i ==> |attempts[j].between| > 0
      {
        var done := TryOnce(reached, conds, attempts[i]);
        if done.Some? {
          return done.value;
        }
      }
      r := SetFailed;
    }

    /** `syncDegraded` */
    method SyncDegraded(attempts: seq<Attempt>) returns (r: SetResult)
      requires Valid() && |attempts| == RETRIES
      modifies this`history
      ensures Valid() && old(history) <= history
      ensures OwnSince(history, |old(history)|, false, [LowestFailure(failing[..])])
      ensures r.Written? || r.Unchanged? ==>
                Shows(Latest(), [LowestFailure(failing[..])]) && DegradedExactly(Latest(), failing[..])
      ensures old(Latest()).status.Some? && EnoughAttempts(attempts) ==> r.Written? || r.Unchanged?
    {
      for i := 0 to LEVELS
        invariant Valid() && history == old(history)
        invariant forall j :: 0 <= j < i ==> failing[j].None?
      {
        if failing[i].Some? {
          LowestFailureIs(failing[..], i);
          r := Set(false, [failing[i].value], attempts);
          if r.Written? || r.Unchanged? {
            LowestIsShown(Latest(), failing[..]);
          }
          return;
        }
      }
      LowestFailureIs(failing[..], LEVELS);
      r := Set(false, [NOT_DEGRADED], attempts);
      if r.Written? || r.Unchanged? {
        LowestIsShown(Latest(), failing[..]);
      }
    }

    method SetDegraded(level: nat, reason: string, message: string, attempts: seq<Attempt>) returns (r: SetResult)
      requires Valid() && level < LEVELS && |attempts| == RETRIES
      modifies this`history, failing
      ensures Valid() && old(history) <= history
      ensures OwnSince(history, |old(history)|, false, [LowestFailure(failing[..])])
      ensures failing[..] == old(failing[..])[level := Some(DegradedCondition(reason, message))]
      ensures r.Written? || r.Unchanged? ==>
                Shows(Latest(), [LowestFailure(failing[..])]) && DegradedExactly(Latest(), failing[..])
      ensures old(Latest()).status.Some? && EnoughAttempts(attempts) ==> r.Written? || r.Unchanged?
    {
      failing[level] := Some(DegradedCondition(reason, message));
      r := SyncDegraded(attempts);
    }

    method SetNotDegraded(level: nat, attempts: seq<Attempt>) returns (r: SetResult)
      requires Valid() && level < LEVELS && |attempts| == RETRIES
      modifies this`history, failing
      ensures Valid() && old(history) <= history
      ensures OwnSince(history, |old(history)|, false, [LowestFailure(failing[..])])
      ensures failing[..] == old(failing[..])[level := None]
      ensures r.Written? || r.Unchanged? ==>
                Shows(Latest(), [LowestFailure(failing[..])]) && DegradedExactly(Latest(), failing[..])
      ensures old(Latest()).status.Some? && EnoughAttempts(attempts) ==> r.Written? || r.Unchanged?
    {
      if failing[level].Some? {
        failing[level] := None;
      }
      r := SyncDegraded(attempts);
    }

    /** `setConditions`: the overall Progressing and Available conditions. */
    method SetConditions(progressing: seq<string>, reached: bool, attempts: seq<Attempt>) returns (r: SetResult)
      requires Valid() && |attempts| == RETRIES
      modifies this`history
      ensures Valid() && old(history) <= history
      ensures r.Written? || r.Unchanged? ==> OverallShown(Latest(), progressing, reached)
      ensures old(Latest()).status.Some? && EnoughAttempts(attempts) ==> r.Written? || r.Unchanged?
      ensures r.Written? ==>
                |old(history)| < |history| && WrittenBy(Latest(), reached, OverallConditions(progressing, reached))
      ensures r.Unchanged? ==> UpToDate(platform, Latest(), reached, OverallConditions(progressing, reached))
    {
      r := Set(reached, OverallConditions(progressing, reached), attempts);
      if r.Written? || r.Unchanged? {
        ConditionsShown(Latest(), progressing, reached);
      }
    }
  }

  /** The version already is what a write of these conditions would make of it. */
  ghost predicate UpToDate(p: Platform, v: Version, reached: bool, conds: Conditions) {
    v.status.Some? && exists now :: Desired(p, v.status.value, reached, conds, now) == v.status.value
  }

  ghost predicate WrittenBy(v: Version, reached: bool, conds: Conditions) {
    v.writer.Operator? && v.writer.reached == reached && v.writer.conds == conds
  }

  /** All the operator wrote from version `from` on are these conditions. */
  ghost predicate OwnSince(h: seq<Version>, from: nat, reached: bool, conds: Conditions) {
    forall k :: from <= k < |h| && h[k].writer.Operator? ==> WrittenBy(h[k], reached, conds)
  }

  ghost predicate NoOwnSince(h: seq<Version>, from: nat) {
    forall k :: from <= k < |h| ==> h[k].writer.Someone?
  }

  lemma OwnAppended(mid: seq<Version>, h: seq<Version>, from: nat, reached: bool, conds: Conditions)
    requires NoOwnSince(mid, from) && mid <= h && |h| <= |mid| + 1
    requires |mid| < |h| ==> WrittenBy(h[|mid|], reached, conds)
    ensures OwnSince(h, from, reached, conds)
  {
  }

  lemma OwnWriteOnLatest(p: Platform, h: seq<Version>, v: Version)
    requires OwnWritesOnLatest(p, h) && |h| > 0 && v.writer.Operator? && UpdateOf(p, h[|h| - 1], v)
    ensures OwnWritesOnLatest(p, h + [v])
  {
    var r := h + [v];
    forall k | 0 < k < |r| ensures OnLatest(p, r, k) {
      if k < |h| {
        assert OnLatest(p, h, k);
      }
    }
  }

  function JoinLines(lines: seq<string>): string {
    if lines == [] then "" else if |lines| == 1 then lines[0] else lines[0] + "\n" + JoinLines(lines[1..])
  }

  /** Line breaks stand between the lines, and nowhere else. */
  lemma {:induction false} JoinedLines(a: seq<string>, b: seq<string>)
    ensures JoinLines([]) == "" && (|a| == 1 ==> JoinLines(a) == a[0])
    ensures a != [] && b != [] ==> JoinLines(a + b) == JoinLines(a) + "\n" + JoinLines(b)
  {
    if |a| == 1 {
      assert (a + b)[1..] == b;
    } else if a != [] && b != [] {
      assert (a + b)[1..] == a[1..] + b;
      JoinedLines(a[1..], b);
    }
  }

  function OverallConditions(progressing: seq<string>, reached: bool): (conds: Conditions)
    ensures OwnConditions(conds)
  {
    [if |progressing| > 0 then Condition(Progressing, IsTrue, "Deploying", JoinLines(progressing), 0)
     else Condition(Progressing, IsFalse, "", "", 0)] +
    if reached then [Condition(Available, IsTrue, "", "", 0)] else []
  }

  /** Progressing says whether something is in progress, and what; Available is True when it is reached. */
  ghost predicate OverallShown(v: Version, progressing: seq<string>, reached: bool) {
    && v.status.Some? && Lookup(v.status.value.conditions, Progressing).Some?
    && var c := Lookup(v.status.value.conditions, Progressing).value;
    && (|progressing| > 0 ==> c.status.IsTrue? && c.reason == "Deploying" && c.message == JoinLines(progressing))
    && (|progressing| == 0 ==> c.status.IsFalse? && c.reason == "" && c.message == "")
    && (reached ==> ShowsTrue(v.status.value.conditions, Available))
  }

  lemma ConditionsShown(v: Version, progressing: seq<string>, reached: bool)
    requires Shows(v, OverallConditions(progressing, reached))
    ensures OverallShown(v, progressing, reached)
  {
    var conds := OverallConditions(progressing, reached);
    assert !Differs(Lookup(v.status.value.conditions, conds[0].ctype), conds[0]);
    if reached {
      assert !Differs(Lookup(v.status.value.conditions, conds[1].ctype), conds[1]);
    }
  }

  ghost predicate OneTrue(v: Version) { v.status.Some? && ExactlyOne(v.status.value.conditions) }

  /** On Kubernetes, after a successful write of the overall conditions of at least one watched workload, or when none
      was needed, exactly one of Available and Progressing is True: Available is reached when nothing is progressing. */
  lemma OverallExactlyOne(h: seq<Version>, k: nat, progressing: seq<string>)
    requires OwnWritesOnLatest(Kubernetes, h) && k < |h|
    requires var conds := OverallConditions(progressing, |progressing| == 0);
             || (0 < k && WrittenBy(h[k], |progressing| == 0, conds))
             || UpToDate(Kubernetes, h[k], |progressing| == 0, conds)
    ensures OneTrue(h[k])
  {
    var conds := OverallConditions(progressing, |progressing| == 0);
    if 0 < k && WrittenBy(h[k], |progressing| == 0, conds) {
      assert OnLatest(Kubernetes, h, k);
      ExactlyOneTrue(BaseOf(h[k - 1]), |progressing| == 0, conds, h[k].writer.now);
    } else {
      var now :| Desired(Kubernetes, h[k].status.value, |progressing| == 0, conds, now) == h[k].status.value;
      ExactlyOneTrue(h[k].status.value, |progressing| == 0, conds, now);
    }
  }

  /** Writing Degraded keeps it so, as long as others do. */
  lemma {:induction false} DegradedKeepsOneTrue(h: seq<Version>, from: nat, to: nat, c: Condition)
    requires OwnWritesOnLatest(Kubernetes, h) && from <= to < |h| && OneTrue(h[from])
    requires c.ctype == Degraded && OwnSince(h, from + 1, false, [c])
    requires forall k :: from < k <= to && h[k].writer.Someone? ==> OneTrue(h[k])
    ensures OneTrue(h[to])
  {
    if from < to {
      DegradedKeepsOneTrue(h, from, to - 1, c);
      if h[to].writer.Operator? {
        assert !Named([c], Available) && !Named([c], Progressing);
        OwnWriteLeavesOthers(Kubernetes, h, to, Available);
        OwnWriteLeavesOthers(Kubernetes, h, to, Progressing);
      }
    }
  }

  // ---------------------------------------------------------------- runs of status operations

  datatype Op =
    | Degrade(level: nat, reason: string, message: string)
    | Clear(level: nat)
    | Overall(progressing: seq<string>, reached: bool)

  ghost predicate OnLevel(op: Op, level: nat) {
    (op.Degrade? || op.Clear?) && op.level == level
  }

  ghost predicate Levelled(ops: seq<Op>) {
    forall i :: 0 <= i < |ops| && !ops[i].Overall? ==> ops[i].level < LEVELS
  }

  ghost function FailingAfter(ops: seq<Op>): (f: seq<Option<Condition>>)
    requires Levelled(ops)
    ensures |f| == LEVELS
  {
    if ops == [] then seq(LEVELS, _ => None)
    else
      Performed(FailingAfter(ops[..|ops| - 1]), ops[|ops| - 1])
  }

  /** The failures after one operation. */
  ghost function Performed(f: seq<Option<Condition>>, op: Op): seq<Option<Condition>>
    requires !op.Overall? ==> op.level < |f|
  {
    match op
    case Degrade(level, reason, message) => f[level := Some(DegradedCondition(reason, message))]
    case Clear(level) => f[level := None]
    case Overall(_, _) => f
  }

  /** The last operation on a level decides: it fails exactly when that was a Degrade, with its reason and message. */
  lemma {:induction false} FailingIsLatest(ops: seq<Op>, level: nat, i: nat)
    requires Levelled(ops) && level < LEVELS && i <= |ops|
    requires forall j :: i <= j < |ops| ==> !OnLevel(ops[j], level)
    requires i == 0 || OnLevel(ops[i - 1], level)
    ensures FailingAfter(ops)[level] ==
            if i > 0 && ops[i - 1].Degrade? then Some(DegradedCondition(ops[i - 1].reason, ops[i - 1].message))
            else None
  {
    if i < |ops| {
      FailingIsLatest(ops[..|ops| - 1], level, i);
    }
  }

  /** Replays any run of status operations on a manager without failures so far, whatever others write in
      between and whichever writes are lost.  If the last operation was on a level and its write succeeded,
      the published Degraded condition is that of the lowest failing level of the whole run. */
  method Replay(m: Manager, ops: seq<Op>, envs: seq<seq<Attempt>>) returns (last: SetResult)
    requires m.Valid() && Levelled(ops) && |envs| == |ops| && forall i :: 0 <= i < |envs| ==> |envs[i]| == RETRIES
    requires m.failing[..] == seq(LEVELS, _ => None)
    modifies m`history, m.failing
    ensures m.Valid() && m.failing[..] == FailingAfter(ops) && old(m.history) <= m.history
    ensures |ops| > 0 && !ops[|ops| - 1].Overall? && (last.Written? || last.Unchanged?) ==>
              Shows(m.Latest(), [LowestFailure(FailingAfter(ops))]) && DegradedExactly(m.Latest(), FailingAfter(ops))
  {
    last := SetFailed;
    for i := 0 to |ops|
      invariant m.Valid() && m.failing == old(m.failing) && old(m.history) <= m.history
      invariant m.failing[..] == FailingAfter(ops[..i])
      invariant i > 0 && !ops[i - 1].Overall? && (last.Written? || last.Unchanged?) ==>
        && Shows(m.Latest(), [LowestFailure(FailingAfter(ops[..i]))])
        && DegradedExactly(m.Latest(), FailingAfter(ops[..i]))
    {
      assert ops[..i + 1][..i] == ops[..i];
      last := Perform(m, ops[i], envs[i]);
      assert m.failing[..] == FailingAfter(ops[..i + 1]);
    }
    assert ops[..|ops|] == ops;
  }

  method Perform(m: Manager, op: Op, attempts: seq<Attempt>) returns (r: SetResult)
    requires m.Valid() && (!op.Overall? ==> op.level < LEVELS) && |attempts| == RETRIES
    modifies m`history, m.failing
    ensures m.Valid() && old(m.history) <= m.history
    ensures m.failing[..] == Performed(old(m.failing[..]), op)
    ensures !op.Overall? && (r.Written? || r.Unchanged?) ==>
              Shows(m.Latest(), [LowestFailure(m.failing[..])]) && DegradedExactly(m.Latest(), m.failing[..])
    ensures old(m.Latest()).status.Some? && EnoughAttempts(attempts) ==> r.Written? || r.Unchanged?
  {
    match op
    case Degrade(level, reason, message) => r := m.SetDegraded(level, reason, message, attempts);
    case Clear(level) => r := m.SetNotDegraded(level, attempts);
    case Overall(progressing, reached) => r := m.SetConditions(progressing, reached, attempts);
  }

  // ---------------------------------------------------------------- node results

  datatype NodeStatus = NodeStatus(addresses: seq<string>, success: bool, reason: string)

  ghost predicate AnyUnsuccessful(cache: map<string, NodeStatus>) {
    exists n :: n in cache && !cache[n].success
  }

  ghost function Reasons(cache: map<string, NodeStatus>, names: seq<string>): seq<string>
    requires forall n :: n in names ==> n in cache
  {
    seq(|names|, i requires 0 <= i < |names| => cache[names[i]].reason)
  }

  /** `order` lists the unsuccessful nodes, each once. */
  ghost predicate ListsUnsuccessful(cache: map<string, NodeStatus>, order: seq<string>) {
    NoDuplicates(order) && forall n :: n in order <==> n in cache && !cache[n].success
  }

  /** `SetFromNodes`; `order` is the order in which the map happened to be iterated. */
  method SetFromNodes(m: Manager, cache: map<string, NodeStatus>, attempts: seq<Attempt>)
    returns (r: SetResult, ghost order: seq<string>)
    requires m.Valid() && |attempts| == RETRIES
    modifies m`history, m.failing
    ensures m.Valid() && old(m.history) <= m.history
    ensures ListsUnsuccessful(cache, order)
    ensures m.failing[..] == old(m.failing[..])[CLUSTER_NODE :=
                if order == [] then None
                else Some(DegradedCondition("ProcessClusterNodeError", JoinLines(Reasons(cache, order))))]
    ensures m.failing[CLUSTER_NODE].Some? <==> AnyUnsuccessful(cache)
    ensures r.Written? || r.Unchanged? ==>
              Shows(m.Latest(), [LowestFailure(m.failing[..])]) && DegradedExactly(m.Latest(), m.failing[..])
    ensures old(m.Latest()).status.Some? && EnoughAttempts(attempts) ==> r.Written? || r.Unchanged?
  {
    var messages: seq<string> := [];
    var allDone := true;
    order := [];
    var todo := cache.Keys;
    while todo != {}
      invariant todo <= cache.Keys
      invariant NoDuplicates(order) && forall n :: n in order <==> n in cache && n !in todo && !cache[n].success
      invariant messages == Reasons(cache, order)
      invariant allDone <==> order == []
    {
      var n :| n in todo;
      if !cache[n].success {
        messages := messages + [cache[n].reason];
        order := order + [n];
        allDone := false;
      }
      todo := todo - {n};
    }
    if order != [] {
      assert order[0] in order;
    }
    if allDone {
      r := m.SetNotDegraded(CLUSTER_NODE, attempts);
    } else {
      r := m.SetDegraded(CLUSTER_NODE, "ProcessClusterNodeError", JoinLines(messages), attempts);
    }
  }
}
