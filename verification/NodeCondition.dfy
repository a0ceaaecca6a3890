/** The NetworkUnavailable condition of each node, driven by nsx-node-agent pod events. */
module NodeCondition {
  import opened Common

  // ---------------------------------------------------------------- pods

  datatype ContainerState =
    | Running(startedAt: int)
    | Waiting(reason: string, message: string)
    | Terminated(reason: string, message: string)
    | NoState

  datatype Container = Container(name: string, state: ContainerState)

  /** `start` is Status.StartTime, unset while the pod is being initialised. */
  datatype Pod = Pod(node: string, start: Option<int>, phase: string, containers: seq<Container>)

  /** 180 seconds in nanoseconds. */
  const GRACE := 180_000_000_000

  /** Messages stay structured; their text is not modelled. */
  datatype MessagePart =
    | NoContainers(phase: string)
    | NotRunning(container: string, why: string)
    | JustStarted(container: string, runningFor: int)
    | AgentRunning
    | AgentNotCreated

  function Why(reason: string, message: string): string {
    if message != "" then message else if reason != "" then reason else "Unknown"
  }

  ghost predicate AllRunning(pod: Pod) {
    |pod.containers| > 0 && forall i :: 0 <= i < |pod.containers| ==> pod.containers[i].state.Running?
  }

  /** `t` is the latest start of a running container among the first `n`. */
  ghost predicate IsLatest(cs: seq<Container>, n: nat, t: Option<int>)
    requires n <= |cs|
  {
    && (t.None? <==> forall i :: 0 <= i < n ==> !cs[i].state.Running?)
    && (t.Some? ==>
        && (forall i :: 0 <= i < n && cs[i].state.Running? ==> cs[i].state.startedAt <= t.value)
        && (exists i :: 0 <= i < n && cs[i].state.Running? && cs[i].state.startedAt == t.value))
  }

  function LatestStart(cs: seq<Container>): Option<int> {
    if cs == [] then None
    else
      var front, c := LatestStart(cs[..|cs| - 1]), cs[|cs| - 1].state;
      if c.Running? && (front.None? || c.startedAt > front.value) then Some(c.startedAt) else front
  }

  lemma {:induction false} LatestStartIs(cs: seq<Container>)
    ensures IsLatest(cs, |cs|, LatestStart(cs))
  {
    if cs != [] {
      var front := cs[..|cs| - 1];
      LatestStartIs(front);
      assert forall i :: 0 <= i < |front| ==> front[i] == cs[i];
      var t := LatestStart(front);
      if t.Some? {
        var i :| 0 <= i < |front| && front[i].state.Running? && front[i].state.startedAt == t.value;
        assert cs[i].state.startedAt == t.value;
      }
    }
  }

  function Messages(pod: Pod, n: nat, now: int): (seq<MessagePart>, seq<MessagePart>)
    requires n <= |pod.containers|
  {
    if n == 0 then (if pod.containers == [] then [NoContainers(pod.phase)] else [], [])
    else
      var (messages, recent) := Messages(pod, n - 1, now);
      var c := pod.containers[n - 1];
      match c.state
      case Running(t) => (messages, if now - t < GRACE then recent + [JustStarted(c.name, now - t)] else recent)
      case Waiting(r, m) => (messages + [NotRunning(c.name, Why(r, m))], recent)
      case Terminated(r, m) => (messages + [NotRunning(c.name, Why(r, m))], recent)
      case NoState => (messages, recent)
  }

  /** The message part a container calls for. */
  ghost function PartOf(c: Container, now: int): Option<MessagePart> {
    match c.state
    case Running(t) => if now - t < 180_000_000_000 then Some(JustStarted(c.name, now - t)) else None
    case Waiting(r, m) => Some(NotRunning(c.name, if m != "" then m else if r != "" then r else "Unknown"))
    case Terminated(r, m) => Some(NotRunning(c.name, if m != "" then m else if r != "" then r else "Unknown"))
    case NoState => None
  }

  /** Both message lists have exactly the parts the containers call for; running containers only add to the second. */
  lemma {:induction false} MessagesAre(pod: Pod, n: nat, now: int, part: MessagePart)
    requires n <= |pod.containers|
    ensures part in Messages(pod, n, now).0 <==>
              || (pod.containers == [] && part == NoContainers(pod.phase))
              || (part.NotRunning? && exists i :: 0 <= i < n && PartOf(pod.containers[i], now) == Some(part))
    ensures part in Messages(pod, n, now).1 <==>
              part.JustStarted? && exists i :: 0 <= i < n && PartOf(pod.containers[i], now) == Some(part)
  {
    if n > 0 {
      MessagesAre(pod, n - 1, now, part);
      assert PartOf(pod.containers[n - 1], now) == Some(part) ==>
               exists i :: 0 <= i < n && PartOf(pod.containers[i], now) == Some(part);
    }
  }

  /** The loop over the container statuses: readiness, latest start and messages. */
  method InspectContainers(pod: Pod, now: int) returns (ready: bool, latest: Option<int>, message: seq<MessagePart>)
    ensures ready <==> AllRunning(pod)
    ensures latest == LatestStart(pod.containers)
    ensures message == Messages(pod, |pod.containers|, now).0 + Messages(pod, |pod.containers|, now).1
  {
    ready, latest := true, None;
    var messages: seq<MessagePart>, recent: seq<MessagePart> := [], [];
    if |pod.containers| == 0 {
      ready := false;
      messages := [NoContainers(pod.phase)];
    }
    for i := 0 to |pod.containers|
      invariant ready <==> |pod.containers| > 0 && forall j :: 0 <= j < i ==> pod.containers[j].state.Running?
      invariant latest == LatestStart(pod.containers[..i])
      invariant (messages, recent) == Messages(pod, i, now)
    {
      var c := pod.containers[i];
      assert pod.containers[..i + 1][..i] == pod.containers[..i];
      match c.state {
        case Running(t) =>
          if latest.None? || t > latest.value {
            latest := Some(t);
          }
          if now - t < GRACE {
            recent := recent + [JustStarted(c.name, now - t)];
          }
        case Waiting(r, m) =>
          ready := false;
          messages := messages + [NotRunning(c.name, Why(r, m))];
        case Terminated(r, m) =>
          ready := false;
          messages := messages + [NotRunning(c.name, Why(r, m))];
        case NoState =>
          ready := false;
      }
    }
    assert pod.containers[..|pod.containers|] == pod.containers;
    message := messages + recent;
  }

  // ---------------------------------------------------------------- node conditions

  /** A node condition; `unavailable` is the status of NetworkUnavailable. */
  datatype Condition = Condition(
    ctype: string,
    unavailable: bool,
    reason: string,
    message: seq<MessagePart>,
    since: int)

  const NETWORK_UNAVAILABLE := "NetworkUnavailable"

  function IndexOf(cs: seq<Condition>, t: string): (i: nat)
    ensures i <= |cs| && (i < |cs| ==> cs[i].ctype == t)
    ensures forall j :: 0 <= j < i ==> cs[j].ctype != t
  {
    if cs == [] || cs[0].ctype == t then 0 else 1 + IndexOf(cs[1..], t)
  }

  /** `SetNodeCondition`: unlike status conditions, any difference moves the transition time. */
  function SetNodeCondition(cs: seq<Condition>, n: Condition, now: int): seq<Condition> {
    var i := IndexOf(cs, n.ctype);
    if i == |cs| then cs + [n.(since := now)]
    else if (cs[i].unavailable, cs[i].reason, cs[i].message) != (n.unavailable, n.reason, n.message) then
      cs[i := n.(since := now)]
    else cs
  }

  predicate ConditionChanges(cs: seq<Condition>, n: Condition) {
    var i := IndexOf(cs, n.ctype);
    i == |cs| || (cs[i].unavailable, cs[i].reason, cs[i].message) != (n.unavailable, n.reason, n.message)
  }

  /** The status of NetworkUnavailable, `None` when the node has no such condition. */
  function NetworkStatus(cs: seq<Condition>): Option<bool> {
    var i := IndexOf(cs, NETWORK_UNAVAILABLE);
    if i < |cs| then Some(cs[i].unavailable) else None
  }

  lemma SetShowsStatus(cs: seq<Condition>, n: Condition, now: int)
    requires n.ctype == NETWORK_UNAVAILABLE
    ensures NetworkStatus(SetNodeCondition(cs, n, now)) == Some(n.unavailable)
    ensures !ConditionChanges(cs, n) ==> SetNodeCondition(cs, n, now) == cs
    ensures var r := SetNodeCondition(cs, n, now);
            && |cs| <= |r| <= |cs| + 1
            && (forall j :: 0 <= j < |cs| && cs[j].ctype != NETWORK_UNAVAILABLE ==> r[j] == cs[j])
            && (ConditionChanges(cs, n) ==> r != cs && n.(since := now) in r)
  {
    var r := SetNodeCondition(cs, n, now);
    var i := IndexOf(cs, n.ctype);
    assert r[i].ctype == n.ctype && forall j :: 0 <= j < i ==> r[j].ctype != n.ctype;
    assert IndexOf(r, n.ctype) == i;
  }

  /** The first NetworkUnavailable condition has this reason and message. */
  ghost predicate Explains(cs: seq<Condition>, reason: string, message: seq<MessagePart>) {
    exists i :: 0 <= i < |cs| && cs[i].ctype == "NetworkUnavailable" && cs[i].reason == reason &&
      cs[i].message == message && forall j :: 0 <= j < i ==> cs[j].ctype != "NetworkUnavailable"
  }

  lemma SetExplains(cs: seq<Condition>, n: Condition, now: int)
    requires n.ctype == NETWORK_UNAVAILABLE
    ensures Explains(SetNodeCondition(cs, n, now), n.reason, n.message)
  {
    var r := SetNodeCondition(cs, n, now);
    var i := IndexOf(cs, n.ctype);
    assert r[i].ctype == n.ctype && forall j :: 0 <= j < i ==> r[j].ctype != n.ctype;
  }

  // ---------------------------------------------------------------- state and client calls

  /** A stored NetworkUnavailable update and the pod it came from. */
  datatype Write = Write(node: string, unavailable: bool, pod: Option<Pod>, at: int)

  datatype State = State(lastStart: map<string, int>, nodes: map<string, seq<Condition>>, log: seq<Write>)

  /** The client calls of one event that fail. */
  datatype Api = Api(getFails: bool, updateFails: bool, assertFails: bool)

  const WORKING := Api(false, false, false)

  datatype Result = Done | RequeueAfter(delay: int) | Error

  /** Two minutes in nanoseconds. */
  const RESYNC := 120_000_000_000

  /** A node without a recorded start reads as the zero time. */
  function LastStart(s: State, node: string): int {
    if node in s.lastStart then s.lastStart[node] else 0
  }

  function NewCondition(ready: bool, message: seq<MessagePart>): Condition {
    if ready then Condition(NETWORK_UNAVAILABLE, false, "NSXNodeAgentReady", [AgentRunning], 0)
    else Condition(NETWORK_UNAVAILABLE, true, "NSXNodeAgentNotReady", message, 0)
  }

  /** `updateNodeStatus`; a node that cannot be read is silently left alone. */
  function Updated(s: State, node: string, ready: bool, message: seq<MessagePart>,
                   pod: Option<Pod>, now: int, api: Api): (State, bool)
  {
    var n := NewCondition(ready, message);
    if api.getFails || node !in s.nodes || !ConditionChanges(s.nodes[node], n) then (s, true)
    else if api.updateFails then (s, false)
    else
      var stored := s.nodes[node := SetNodeCondition(s.nodes[node], n, now)];
      (State(s.lastStart, stored, s.log + [Write(node, !ready, pod, now)]), true)
  }

  /** `assertNodeStatus` */
  function Asserted(s: State, node: string, ready: bool, api: Api): Result {
    if api.assertFails || node !in s.nodes then Error
    else if NetworkStatus(s.nodes[node]) == Some(!ready) then Done
    else RequeueAfter(RESYNC)
  }

  /** `setNodeNetworkUnavailable` */
  function Reported(s: State, node: string, ready: bool, startedAt: Option<int>, message: seq<MessagePart>,
                    pod: Option<Pod>, now: int, api: Api): (State, Result)
    requires ready ==> startedAt.Some?
  {
    if !ready || now - startedAt.value >= GRACE then
      var (after, ok) := Updated(s, node, ready, message, pod, now, api);
      (after, if !ok then Error else Asserted(after, node, ready, api))
    else
      var (after, ok) := Updated(s, node, false, message, pod, now, api);
      (after, if !ok then Error else RequeueAfter(GRACE - (now - startedAt.value)))
  }

  predicate Outdated(s: State, pod: Pod) {
    pod.start.Some? && pod.start.value < LastStart(s, pod.node)
  }

  /** Ready pods always have a latest start, so it is never missing when it is needed. */
  lemma ReadyHasStart(pod: Pod)
    ensures AllRunning(pod) ==> LatestStart(pod.containers).Some?
  {
    LatestStartIs(pod.containers);
  }

  /** `setNodeConditionFromPod` for a pod that was found; `seenAt` and `now` are its two clock readings. */
  ghost function FromPod(s: State, pod: Pod, seenAt: int, now: int, api: Api): (State, Result) {
    if pod.node == "" || Outdated(s, pod) then (s, Done)
    else
      var recorded := if pod.start.Some? then s.(lastStart := s.lastStart[pod.node := pod.start.value]) else s;
      var (a, b) := Messages(pod, |pod.containers|, seenAt);
      ReadyHasStart(pod);
      Reported(recorded, pod.node, AllRunning(pod), LatestStart(pod.containers), a + b, Some(pod), now, api)
  }

  /** What an event handler gets when it reads the pod. */
  datatype PodRead = PodFound(pod: Pod) | PodMissing | PodUnreadable

  /** `setNodeConditionFromPod`: a missing pod is ignored, an unreadable one is an error. */
  ghost function FromRead(s: State, read: PodRead, seenAt: int, now: int, api: Api): (State, Result) {
    match read
    case PodFound(pod) => FromPod(s, pod, seenAt, now, api)
    case PodMissing => (s, Done)
    case PodUnreadable => (s, Error)
  }

  // ---------------------------------------------------------------- what an event decides

  /** Every container is running and has been for at least 180 seconds. */
  ghost predicate RunningLongEnough(pod: Pod, now: int) {
    && |pod.containers| > 0
    && forall i :: 0 <= i < |pod.containers| ==>
         pod.containers[i].state.Running? && now - pod.containers[i].state.startedAt >= 180_000_000_000
  }

  /** The pod is on a known node and not older than the newest one seen there. */
  ghost predicate Counts(s: State, pod: Pod) {
    && pod.node != "" && pod.node in s.nodes
    && (pod.start.None? || pod.start.value >= LastStart(s, pod.node))
  }

  lemma LongEnoughIs(pod: Pod, now: int)
    ensures AllRunning(pod) ==> LatestStart(pod.containers).Some?
    ensures RunningLongEnough(pod, now) <==>
              AllRunning(pod) && now - LatestStart(pod.containers).value >= 180_000_000_000
  {
    LatestStartIs(pod.containers);
  }

  lemma WorkingStores(s: State, pod: Pod, seenAt: int, now: int)
    requires Counts(s, pod)
    ensures var (after, r) := FromPod(s, pod, seenAt, now, WORKING);
            var (a, b) := Messages(pod, |pod.containers|, seenAt);
            var n := NewCondition(RunningLongEnough(pod, now), a + b);
            && after.nodes == s.nodes[pod.node := SetNodeCondition(s.nodes[pod.node], n, now)]
            && r == if AllRunning(pod) && !RunningLongEnough(pod, now) then
                      RequeueAfter(GRACE - (now - LatestStart(pod.containers).value))
                    else Asserted(after, pod.node, RunningLongEnough(pod, now), WORKING)
  {
    LongEnoughIs(pod, now);
    var (a, b) := Messages(pod, |pod.containers|, seenAt);
    SetShowsStatus(s.nodes[pod.node], NewCondition(RunningLongEnough(pod, now), a + b), now);
  }

  /** With working calls a pod makes its node unavailable unless every container has been running long enough, and
      touches no other node.  A pod that is only too young is looked at again at the first moment it is old enough. */
  lemma PodDecidesExactly(s: State, pod: Pod, seenAt: int, now: int)
    requires Counts(s, pod)
    ensures var (after, r) := FromPod(s, pod, seenAt, now, WORKING);
            && after.nodes.Keys == s.nodes.Keys
            && NetworkStatus(after.nodes[pod.node]) == Some(!RunningLongEnough(pod, now))
            && (forall n :: n in s.nodes && n != pod.node ==> after.nodes[n] == s.nodes[n])
            && (if AllRunning(pod) && !RunningLongEnough(pod, now) then
                  && r.RequeueAfter? && r.delay > 0
                  && forall at :: RunningLongEnough(pod, at) <==> at >= now + r.delay
                else r == Done)
  {
    LongEnoughIs(pod, now);
    var (a, b) := Messages(pod, |pod.containers|, seenAt);
    WorkingStores(s, pod, seenAt, now);
    SetShowsStatus(s.nodes[pod.node], NewCondition(RunningLongEnough(pod, now), a + b), now);
    forall at ensures RunningLongEnough(pod, at) <==>
                      AllRunning(pod) && at - LatestStart(pod.containers).value >= 180_000_000_000 {
      LongEnoughIs(pod, at);
    }
  }

  /** The stored reason and message: every container that is not running, or has just started, is named. */
  lemma PodExplains(s: State, pod: Pod, seenAt: int, now: int) returns (message: seq<MessagePart>)
    requires Counts(s, pod)
    ensures var shown := FromPod(s, pod, seenAt, now, WORKING).0.nodes[pod.node];
            if RunningLongEnough(pod, now) then Explains(shown, "NSXNodeAgentReady", [AgentRunning])
            else Explains(shown, "NSXNodeAgentNotReady", message)
    ensures forall part :: part in message <==>
              || (pod.containers == [] && part == NoContainers(pod.phase))
              || exists i :: 0 <= i < |pod.containers| && PartOf(pod.containers[i], seenAt) == Some(part)
  {
    LongEnoughIs(pod, now);
    var (a, b) := Messages(pod, |pod.containers|, seenAt);
    message := a + b;
    WorkingStores(s, pod, seenAt, now);
    SetExplains(s.nodes[pod.node], NewCondition(RunningLongEnough(pod, now), message), now);
    forall part ensures part in message <==> part in a || part in b {
    }
    forall part {
      MessagesAre(pod, |pod.containers|, seenAt, part);
    }
  }

  /** A node without an agent pod becomes unavailable. */
  lemma MissingDecides(s: State, node: string, now: int)
    requires node in s.nodes
    ensures var (after, r) := Reported(s, node, false, None, [AgentNotCreated], None, now, WORKING);
            && r == Done && after.nodes.Keys == s.nodes.Keys && NetworkStatus(after.nodes[node]) == Some(true)
            && forall n :: n in s.nodes && n != node ==> after.nodes[n] == s.nodes[n]
  {
    SetShowsStatus(s.nodes[node], NewCondition(false, [AgentNotCreated]), now);
  }

  /** With failing calls: the node is left alone when it cannot be read or updated; an update that is needed and fails
      is an error, and so is a failing check afterwards; a check that does not find what it expects asks again in two
      minutes. */
  lemma FailuresExactly(s: State, pod: Pod, seenAt: int, now: int, api: Api)
    requires Counts(s, pod)
    ensures var (after, r) := FromPod(s, pod, seenAt, now, api);
            var wrong := NetworkStatus(s.nodes[pod.node]) != Some(!RunningLongEnough(pod, now));
            var young := AllRunning(pod) && !RunningLongEnough(pod, now);
            && (api.getFails || api.updateFails ==> after.nodes == s.nodes && after.log == s.log)
            && (!api.getFails && api.updateFails && wrong ==> r == Error)
            && (api.assertFails && !young ==> r == Error)
            && (r == Error ==> (!api.getFails && api.updateFails) || (api.assertFails && !young))
            && (r != Error && !young ==> r == if api.getFails && wrong then RequeueAfter(120_000_000_000) else Done)
  {
    LongEnoughIs(pod, now);
    var (a, b) := Messages(pod, |pod.containers|, seenAt);
    SetShowsStatus(s.nodes[pod.node], NewCondition(true, a + b), now);
    SetShowsStatus(s.nodes[pod.node], NewCondition(false, a + b), now);
  }

  /** A pod on a node that does not exist, or no longer does, stores nothing: the check afterwards fails. */
  lemma UnknownNode(s: State, pod: Pod, seenAt: int, now: int, api: Api)
    requires pod.node != "" && pod.node !in s.nodes && (pod.start.None? || pod.start.value >= LastStart(s, pod.node))
    ensures var (after, r) := FromPod(s, pod, seenAt, now, api);
            && after.nodes == s.nodes && after.log == s.log
            && (r == Error <==> !AllRunning(pod) || RunningLongEnough(pod, now))
            && (r != Error ==> r.RequeueAfter? && r.delay > 0)
  {
    LongEnoughIs(pod, now);
  }

  // ---------------------------------------------------------------- runs

  datatype Event =
    | PodEvent(pod: Pod, seenAt: int, now: int, api: Api)
    | AgentMissing(node: string, now: int, api: Api)

  ghost function Next(s: State, e: Event): State {
    match e
    case PodEvent(pod, seenAt, now, api) => FromPod(s, pod, seenAt, now, api).0
    case AgentMissing(node, now, api) => Reported(s, node, false, None, [AgentNotCreated], None, now, api).0
  }

  /** What the handler of an event returns. */
  ghost function Answer(s: State, e: Event): Result {
    match e
    case PodEvent(pod, seenAt, now, api) => FromPod(s, pod, seenAt, now, api).1
    case AgentMissing(node, now, api) => Reported(s, node, false, None, [AgentNotCreated], None, now, api).1
  }

  ghost function Run(s: State, events: seq<Event>): State {
    if events == [] then s else Next(Run(s, events[..|events| - 1]), events[|events| - 1])
  }

  /** Handling the `i`-th event of a run gives no error. */
  ghost predicate Works(s: State, events: seq<Event>, i: nat)
    requires i < |events|
  {
    !Answer(Run(s, events[..i]), events[i]).Error?
  }

  /** NetworkUnavailable=False was stored for a pod with containers, all running for at least 180 seconds. */
  ghost predicate Justified(w: Write) {
    !w.unavailable ==>
      && w.pod.Some? && w.pod.value.node == w.node && AllRunning(w.pod.value)
      && forall i :: 0 <= i < |w.pod.value.containers| && w.pod.value.containers[i].state.Running? ==>
           w.at - w.pod.value.containers[i].state.startedAt >= 180_000_000_000
  }

  /** One event: the recorded start of every node only grows, and what is appended to the log is justified. */
  lemma NextIsSafe(s: State, e: Event)
    ensures var after := Next(s, e);
            && (forall n :: LastStart(s, n) <= LastStart(after, n))
            && s.log <= after.log
            && (forall i :: |s.log| <= i < |after.log| ==> Justified(after.log[i]))
  {
    if e.PodEvent? {
      LatestStartIs(e.pod.containers);
    }
  }

  /** Over every run of events: recorded starts never decrease and every False ever stored was justified. */
  lemma {:induction false} RunIsSafe(s: State, events: seq<Event>)
    requires forall i :: 0 <= i < |s.log| ==> Justified(s.log[i])
    ensures forall n :: LastStart(s, n) <= LastStart(Run(s, events), n)
    ensures forall i :: 0 <= i < |Run(s, events).log| ==> Justified(Run(s, events).log[i])
  {
    if events != [] {
      RunIsSafe(s, events[..|events| - 1]);
      NextIsSafe(Run(s, events[..|events| - 1]), events[|events| - 1]);
    }
  }

  /** After a pod of a start time was seen, older pods change nothing for the rest of the run. */
  lemma OutdatedIgnored(s: State, first: Event, between: seq<Event>, late: Event)
    requires first.PodEvent? && first.pod.start.Some? && first.pod.node != "" && !Outdated(s, first.pod)
    requires late.PodEvent? && late.pod.node == first.pod.node
    requires late.pod.start.Some? && late.pod.start.value < first.pod.start.value
    ensures var before := Run(Next(s, first), between);
            Next(before, late) == before
  {
    var seen := Next(s, first);
    RecordedStart(s, first);
    RunOnlyGrows(seen, between, first.pod.node);
  }

  lemma RecordedStart(s: State, e: Event)
    requires e.PodEvent? && e.pod.start.Some? && e.pod.node != "" && !Outdated(s, e.pod)
    ensures LastStart(Next(s, e), e.pod.node) == e.pod.start.value
  {
  }

  lemma {:induction false} RunOnlyGrows(s: State, events: seq<Event>, node: string)
    ensures LastStart(s, node) <= LastStart(Run(s, events), node)
  {
    if events != [] {
      RunOnlyGrows(s, events[..|events| - 1], node);
      NextIsSafe(Run(s, events[..|events| - 1]), events[|events| - 1]);
    }
  }

  function NodeOf(e: Event): string { if e.PodEvent? then e.pod.node else e.node }

  /** An event about one node leaves the conditions and the recorded start of every other. */
  lemma NextLeavesOthers(s: State, e: Event, node: string)
    requires NodeOf(e) != node
    ensures LastStart(Next(s, e), node) == LastStart(s, node)
    ensures node in Next(s, e).nodes <==> node in s.nodes
    ensures node in s.nodes ==> Next(s, e).nodes[node] == s.nodes[node]
  {
  }

  /** Over every run the latest event that counts decides, whatever happens to other nodes in between: until the pod
      is looked at again its node stays unavailable, or available. */
  lemma {:induction false} LatestDecides(s: State, events: seq<Event>, i: nat)
    requires i < |events| && events[i].PodEvent? && events[i].api == WORKING
    requires Counts(Run(s, events[..i]), events[i].pod)
    requires forall j :: i < j < |events| ==> NodeOf(events[j]) != events[i].pod.node
    ensures events[i].pod.node in Run(s, events).nodes
    ensures NetworkStatus(Run(s, events).nodes[events[i].pod.node]) ==
            Some(!RunningLongEnough(events[i].pod, events[i].now))
  {
    var front, last := events[..|events| - 1], events[|events| - 1];
    if i == |events| - 1 {
      PodDecidesExactly(Run(s, front), last.pod, last.seenAt, last.now);
    } else {
      assert front[..i] == events[..i];
      LatestDecides(s, front, i);
      NextLeavesOthers(Run(s, front), last, events[i].pod.node);
    }
  }

  /** A node that is unavailable stays so over every run, whatever calls fail, until a pod on it has been running long
      enough. */
  lemma {:induction false} StaysUnavailable(s: State, events: seq<Event>, node: string)
    requires node in s.nodes && NetworkStatus(s.nodes[node]) == Some(true)
    requires forall i :: 0 <= i < |events| && events[i].PodEvent? && events[i].pod.node == node ==>
               !RunningLongEnough(events[i].pod, events[i].now)
    ensures node in Run(s, events).nodes && NetworkStatus(Run(s, events).nodes[node]) == Some(true)
  {
    if events != [] {
      StaysUnavailable(s, events[..|events| - 1], node);
      var before, e := Run(s, events[..|events| - 1]), events[|events| - 1];
      if NodeOf(e) != node {
        NextLeavesOthers(before, e, node);
      } else {
        StepStaysUnavailable(before, e);
      }
    }
  }

  lemma StepStaysUnavailable(s: State, e: Event)
    requires NodeOf(e) in s.nodes && NetworkStatus(s.nodes[NodeOf(e)]) == Some(true)
    requires e.PodEvent? ==> !RunningLongEnough(e.pod, e.now)
    ensures NodeOf(e) in Next(s, e).nodes && NetworkStatus(Next(s, e).nodes[NodeOf(e)]) == Some(true)
  {
    var node := NodeOf(e);
    if e.PodEvent? {
      LongEnoughIs(e.pod, e.now);
      var (a, b) := Messages(e.pod, |e.pod.containers|, e.seenAt);
      SetShowsStatus(s.nodes[node], NewCondition(false, a + b), e.now);
    } else {
      SetShowsStatus(s.nodes[node], NewCondition(false, [AgentNotCreated]), e.now);
    }
  }

  /** Grace-period progress: a ready pod younger than 180 seconds is requeued after a positive delay, and looking at
      it again at any time from then on stores NetworkUnavailable=False, unless a newer pod was seen or a call fails. */
  lemma GraceProgress(s: State, pod: Pod, seenAt: int, now: int, api: Api, later: State, seenLater: int, nowLater: int)
    requires pod.node != "" && AllRunning(pod) && !Outdated(s, pod)
    requires LatestStart(pod.containers).Some? && now - LatestStart(pod.containers).value < 180_000_000_000
    requires FromPod(s, pod, seenAt, now, api).1 != Error
    requires pod.node in later.nodes && !Outdated(later, pod)
    ensures var r := FromPod(s, pod, seenAt, now, api).1;
            && r.RequeueAfter? && r.delay > 0
            && (nowLater >= now + r.delay ==>
                var (after, again) := FromPod(later, pod, seenLater, nowLater, WORKING);
                again == Done && NetworkStatus(after.nodes[pod.node]) == Some(false))
  {
    var n := NewCondition(true, []);
    SetShowsStatus(later.nodes[pod.node], n, nowLater);
  }

  // ---------------------------------------------------------------- implementation

  /** The start-time table of the operator and the nodes of the cluster. */
  class Tracker {
    var lastStart: map<string, int>
    var nodes: map<string, seq<Condition>>
    var firstBoot: bool
    ghost var log: seq<Write>

    ghost function Current(): State
      reads this
    {
      State(lastStart, nodes, log)
    }

    constructor (nodes: map<string, seq<Condition>>)
      ensures Current() == State(map[], nodes, []) && firstBoot
    {
      lastStart, this.nodes, firstBoot, log := map[], nodes, true, [];
    }

    method UpdateNodeStatus(node: string, ready: bool, message: seq<MessagePart>,
                            ghost pod: Option<Pod>, now: int, api: Api)
      returns (ok: bool)
      modifies this`nodes, this`log
      ensures (Current(), ok) == Updated(old(Current()), node, ready, message, pod, now, api)
    {
      if api.getFails || node !in nodes {
        return true;
      }
      var n := NewCondition(ready, message);
      if !ConditionChanges(nodes[node], n) {
        return true;
      }
      if api.updateFails {
        return false;
      }
      nodes := nodes[node := SetNodeCondition(nodes[node], n, now)];
      log := log + [Write(node, !ready, pod, now)];
      ok := true;
    }

    method SetNodeNetworkUnavailable(node: string, ready: bool, startedAt: Option<int>, message: seq<MessagePart>,
                                     ghost pod: Option<Pod>, now: int, api: Api)
      returns (r: Result)
      requires ready ==> startedAt.Some?
      modifies this`nodes, this`log
      ensures (Current(), r) == Reported(old(Current()), node, ready, startedAt, message, pod, now, api)
    {
      if !ready {
        var ok := UpdateNodeStatus(node, ready, message, pod, now, api);
        r := if ok then Asserted(State(lastStart, nodes, []), node, ready, api) else Error;
        return;
      }
      var running := now - startedAt.value;
      if running >= GRACE {
        var ok := UpdateNodeStatus(node, ready, message, pod, now, api);
        r := if ok then Asserted(State(lastStart, nodes, []), node, ready, api) else Error;
        return;
      }
      var ok := UpdateNodeStatus(node, false, message, pod, now, api);
      r := if ok then RequeueAfter(GRACE - running) else Error;
    }

    method SetNodeConditionFromPod(read: PodRead, seenAt: int, now: int, api: Api) returns (r: Result)
      modifies this`lastStart, this`nodes, this`log
      ensures (Current(), r) == FromRead(old(Current()), read, seenAt, now, api)
      ensures !read.PodFound? || read.pod.node == "" ==>
                Current() == old(Current()) && r == if read.PodUnreadable? then Error else Done
    {
      if !read.PodFound? {
        return if read.PodMissing? then Done else Error;
      }
      var pod := read.pod;
      if pod.node == "" {
        return Done;
      }
      if pod.start.Some? {
        var last := if pod.node in lastStart then lastStart[pod.node] else 0;
        if pod.start.value < last {
          return Done;
        }
        lastStart := lastStart[pod.node := pod.start.value];
      }
      var ready, latest, message := InspectContainers(pod, seenAt);
      ReadyHasStart(pod);
      r := SetNodeNetworkUnavailable(pod.node, ready, latest, message, Some(pod), now, api);
    }

    /** One pod or one node without a pod. */
    method Handle(e: Event) returns (r: Result)
      modifies this`lastStart, this`nodes, this`log
      ensures Current() == Next(old(Current()), e) && r == Answer(old(Current()), e)
    {
      if e.PodEvent? {
        r := SetNodeConditionFromPod(PodFound(e.pod), e.seenAt, e.now, e.api);
      } else {
        r := SetNodeNetworkUnavailable(e.node, false, None, [AgentNotCreated], None, e.now, e.api);
      }
    }

    /** `CheckExistingAgentPods`: at the first boot, every agent pod, or every node when there is none; a failed
        listing is `None`.  Stops at the first error, having handled `done` of them. */
    method CheckExistingAgentPods(pods: Option<seq<Event>>, missing: Option<seq<Event>>) returns (ok: bool, done: nat)
      requires pods.Some? ==> forall i :: 0 <= i < |pods.value| ==> pods.value[i].PodEvent?
      requires missing.Some? ==> forall i :: 0 <= i < |missing.value| ==> missing.value[i].AgentMissing?
      modifies this
      ensures !old(firstBoot) ==> ok && Current() == old(Current()) && !firstBoot
      ensures old(firstBoot) ==>
                var events := if pods == Some([]) then missing else pods;
                && firstBoot == !ok
                && (events.None? ==> !ok && Current() == old(Current()))
                && (events.Some? ==>
                    && done <= |events.value| && Current() == Run(old(Current()), events.value[..done])
                    && (forall i :: 0 <= i < done - 1 ==> Works(old(Current()), events.value, i))
                    && (ok ==> done == |events.value| && (done > 0 ==> Works(old(Current()), events.value, done - 1)))
                    && (!ok ==> done > 0 && !Works(old(Current()), events.value, done - 1)))
    {
      done := 0;
      if !firstBoot {
        return true, done;
      }
      if pods.None? || (|pods.value| == 0 && missing.None?) {
        return false, done;
      }
      var events := if |pods.value| == 0 then missing.value else pods.value;
      while done < |events|
        invariant done <= |events| && firstBoot && Current() == Run(old(Current()), events[..done])
        invariant forall i :: 0 <= i < done ==> Works(old(Current()), events, i)
      {
        assert events[..done + 1][..done] == events[..done];
        var r := Handle(events[done]);
        done := done + 1;
        if r.Error? {
          return false, done;
        }
      }
      firstBoot := false;
      ok := true;
    }
  }
}
