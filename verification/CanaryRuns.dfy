/** The canary controller under every interleaving of cluster events, filtered events
    and the separate reads and writes of its Reconcile. */
module CanaryRuns {
  import opened Common
  import opened SortedStrings
  import opened Canary

  datatype Request = Request(namespace: string, name: string)

  const NAMESPACE := "openshift-ingress-canary"
  const UPSTREAM_REQUEST := Request(NAMESPACE, "ingress-canary")
  const COMPANION_REQUEST := Request(NAMESPACE, "canary-nsx-access")

  /** Where the one Reconcile worker is, with what it has read so far. */
  datatype Phase =
    | Idle
    | Started(req: Request)
    | Deleting(req: Request)
    | GotUpstream(req: Request, up: Upstream)
    | GotNodes(req: Request, up: Upstream, ips: seq<string>)
    | GotPorts(req: Request, up: Upstream, ips: seq<string>, ports: seq<int>)

  datatype State = State(
    nodes: map<string, Node>,
    service: Option<Service>,
    upstream: Option<Upstream>,
    companion: Option<Companion>,
    queue: set<Request>,
    phase: Phase)

  datatype Event =
    // what others do to the cluster, as the watches report it
    | NodeStored(name: string, node: Node)
    | NodeDeleted(name: string)
    | ServiceChanged(service: Option<Service>)
    | UpstreamChanged(upstream: Option<Upstream>)
    | CompanionEdited(companion: Option<Companion>)
    | UnrelatedEvent(req: Request)
    // what the worker does
    | Dequeue(req: Request)
    | Proceed
    | Fail(written: bool)

  ghost function ClusterIPs(nodes: map<string, Node>): set<string> {
    set name, ip | name in nodes && ip in IPsOf(nodes[name]) :: ip
  }

  /** A listing of the nodes in any order gives the same addresses. */
  lemma ListingOrderIrrelevant(nodes: map<string, Node>, items: seq<Node>)
    requires Elements(items) == nodes.Values
    ensures AllIPs(items) == ClusterIPs(nodes)
  {
    forall ip ensures ip in AllIPs(items) <==> ip in ClusterIPs(nodes) {
      if ip in AllIPs(items) {
        var n :| n in items && ip in IPsOf(n);
        assert n in Elements(items);
        var name :| name in nodes && nodes[name] == n;
      }
      if ip in ClusterIPs(nodes) {
        var name :| name in nodes && ip in IPsOf(nodes[name]);
        assert nodes[name] in nodes.Values;
        assert nodes[name] in Elements(items);
      }
    }
  }

  // ---------------------------------------------------------------- steps

  ghost function Enqueue(s: State, req: Request): State { s.(queue := s.queue + {req}) }

  /** A stored companion that differs from the previous one comes back as a watch event. */
  ghost function StoreCompanion(s: State, companion: Option<Companion>): State {
    if companion == s.companion then s
    else Enqueue(s.(companion := companion), COMPANION_REQUEST)
  }

  ghost predicate Wanted(up: Option<Upstream>) { up.Some? && HasHostNetworkSelector(up.value) }

  ghost function Advance(isV4: string -> bool, s: State): State {
    match s.phase
    case Idle => s
    case Started(req) => s.(phase := if Wanted(s.upstream) then GotUpstream(req, s.upstream.value) else Deleting(req))
    case Deleting(_) => StoreCompanion(s.(phase := Idle), None)
    case GotUpstream(req, up) =>
      var ips := SortedList(ClusterIPs(s.nodes));
      s.(phase := if ips == [] then Idle else GotNodes(req, up, ips))
    case GotNodes(req, up, ips) =>
      var ports := CanaryPorts(s.service);
      s.(phase := if ports == [] then Idle else GotPorts(req, up, ips, ports))
    case GotPorts(_, up, ips, ports) => StoreCompanion(s.(phase := Idle), Some(Build(isV4, up, ips, ports)))
  }

  /** A failed client call ends the Reconcile and requeues the request; a failed write may still have been stored. */
  ghost function GiveUp(isV4: string -> bool, s: State, written: bool): State {
    if s.phase.Idle? then s
    else
      var stored := if written && (s.phase.Deleting? || s.phase.GotPorts?) then Advance(isV4, s) else s;
      Enqueue(stored.(phase := Idle), s.phase.req)
  }

  ghost function Next(isV4: string -> bool, s: State, e: Event): State {
    match e
    case NodeStored(name, node) =>
      // updates that leave the addresses alone are dropped by the predicate
      var stored := s.(nodes := s.nodes[name := node]);
      if name in s.nodes && IPsOf(s.nodes[name]) == IPsOf(node) then stored else Enqueue(stored, Request("", name))
    case NodeDeleted(name) => if name in s.nodes then Enqueue(s.(nodes := s.nodes - {name}), Request("", name)) else s
    case ServiceChanged(service) => Enqueue(s.(service := service), UPSTREAM_REQUEST)
    case UpstreamChanged(up) => Enqueue(s.(upstream := up), UPSTREAM_REQUEST)
    case CompanionEdited(companion) => Enqueue(s.(companion := companion), COMPANION_REQUEST)
    case UnrelatedEvent(req) => if req.namespace == NAMESPACE then Enqueue(s, req) else s
    case Dequeue(req) =>
      if s.phase.Idle? && req in s.queue then s.(queue := s.queue - {req}, phase := Started(req)) else s
    case Proceed => Advance(isV4, s)
    case Fail(written) => GiveUp(isV4, s, written)
  }

  ghost function Run(isV4: string -> bool, s: State, events: seq<Event>): State {
    if events == [] then s else Next(isV4, Run(isV4, s, events[..|events| - 1]), events[|events| - 1])
  }

  // ---------------------------------------------------------------- safety

  /** The companion is what the current cluster asks for. */
  ghost predicate Settled(isV4: string -> bool, s: State) {
    && (!Wanted(s.upstream) ==> s.companion.None?)
    && (Wanted(s.upstream) && ClusterIPs(s.nodes) != {} && CanaryPorts(s.service) != [] ==>
        s.companion == Some(Build(isV4, s.upstream.value, SortedList(ClusterIPs(s.nodes)), CanaryPorts(s.service))))
  }

  /** With no request pending, everything the worker has read is still current. */
  ghost predicate ReadsCurrent(isV4: string -> bool, s: State) {
    match s.phase
    case Idle => Settled(isV4, s)
    case Started(_) => true
    case Deleting(_) => !Wanted(s.upstream)
    case GotUpstream(_, up) => Wanted(s.upstream) && s.upstream == Some(up)
    case GotNodes(_, up, ips) => Wanted(s.upstream) && s.upstream == Some(up) && ips == SortedList(ClusterIPs(s.nodes))
    case GotPorts(_, up, ips, ports) =>
      && Wanted(s.upstream) && s.upstream == Some(up)
      && ips == SortedList(ClusterIPs(s.nodes)) && ports == CanaryPorts(s.service)
  }

  ghost predicate Inv(isV4: string -> bool, s: State) {
    s.queue == {} ==> ReadsCurrent(isV4, s)
  }

  /** When the controller starts its watches report every object that exists. */
  ghost predicate Initial(s: State) {
    && s.phase.Idle?
    && (s.upstream.Some? ==> UPSTREAM_REQUEST in s.queue)
    && (s.companion.Some? ==> COMPANION_REQUEST in s.queue)
  }

  /** A node update dropped by the predicate leaves the addresses of the cluster, and so the policy, as they were. */
  lemma DroppedUpdateHarmless(nodes: map<string, Node>, name: string, node: Node)
    requires name in nodes && IPsOf(nodes[name]) == IPsOf(node)
    ensures ClusterIPs(nodes[name := node]) == ClusterIPs(nodes)
  {
    var after := nodes[name := node];
    forall ip ensures ip in ClusterIPs(after) <==> ip in ClusterIPs(nodes) {
      if ip in ClusterIPs(after) {
        var n :| n in after && ip in IPsOf(after[n]);
        assert n in nodes && ip in IPsOf(nodes[n]);
      }
      if ip in ClusterIPs(nodes) {
        var n :| n in nodes && ip in IPsOf(nodes[n]);
        assert n in after && ip in IPsOf(after[n]);
      }
    }
  }

  lemma NothingToList(nodes: map<string, Node>)
    ensures SortedList(ClusterIPs(nodes)) == [] <==> ClusterIPs(nodes) == {}
  {
    SortedListIs(ClusterIPs(nodes));
    if ClusterIPs(nodes) != {} {
      var ip :| ip in ClusterIPs(nodes);
      assert ip in SortedList(ClusterIPs(nodes));
    }
  }

  lemma NextKeepsInv(isV4: string -> bool, s: State, e: Event)
    requires Inv(isV4, s)
    ensures Inv(isV4, Next(isV4, s, e))
  {
    match e
    case NodeStored(name, node) =>
      if name in s.nodes && IPsOf(s.nodes[name]) == IPsOf(node) {
        DroppedUpdateHarmless(s.nodes, name, node);
      }
    case Proceed => AdvanceKeepsInv(isV4, s);
    case _ =>
  }

  lemma AdvanceKeepsInv(isV4: string -> bool, s: State)
    requires Inv(isV4, s)
    ensures Inv(isV4, Advance(isV4, s))
  {
    match s.phase
    case Idle =>
    case Started(_) =>
    case GotUpstream(_, _) => NothingToList(s.nodes);
    case GotNodes(_, _, _) =>
    case Deleting(_) => StoringSettles(isV4, s, None);
    case GotPorts(_, up, ips, ports) => StoringSettles(isV4, s, Some(Build(isV4, up, ips, ports)));
  }

  /** Storing the companion the current cluster asks for keeps the invariant. */
  lemma StoringSettles(isV4: string -> bool, s: State, companion: Option<Companion>)
    requires s.queue == {} ==> Settled(isV4, s.(phase := Idle, companion := companion))
    ensures Inv(isV4, StoreCompanion(s.(phase := Idle), companion))
  {
    if companion == s.companion {
      assert s.(phase := Idle, companion := companion) == s.(phase := Idle);
    }
  }

  lemma {:induction false} RunKeepsInv(isV4: string -> bool, s: State, events: seq<Event>)
    requires Initial(s)
    ensures Inv(isV4, Run(isV4, s, events))
  {
    if events != [] {
      RunKeepsInv(isV4, s, events[..|events| - 1]);
      NextKeepsInv(isV4, Run(isV4, s, events[..|events| - 1]), events[|events| - 1]);
    }
  }

  /** Main theorem: over every interleaving, whenever no Reconcile is pending or running the companion is
      absent if upstream is missing or lacks the selector, and otherwise is the policy built from the current
      nodes and ports whenever there are some. */
  lemma QuiescentMeansSettled(isV4: string -> bool, s: State, events: seq<Event>)
    requires Initial(s)
    ensures var after := Run(isV4, s, events);
            after.queue == {} && after.phase.Idle? ==> Settled(isV4, after)
  {
    RunKeepsInv(isV4, s, events);
  }

  // ---------------------------------------------------------------- Reconcile as one call

  /** The companion one undisturbed Reconcile leaves behind. */
  ghost function Target(isV4: string -> bool, up: Option<Upstream>, ips: set<string>, ports: seq<int>,
                        companion: Option<Companion>): Option<Companion>
  {
    if !Wanted(up) then None
    else if ips == {} || ports == [] then companion
    else Some(Build(isV4, up.value, SortedList(ips), ports))
  }

  /** The client calls of one Reconcile that fail. */
  datatype Faults = Faults(upstream: bool, nodes: bool, service: bool, write: bool)

  class Controller {
    var nodes: seq<Node>
    var service: Option<Service>
    var upstream: Option<Upstream>
    var companion: Option<Companion>

    constructor (nodes: seq<Node>, service: Option<Service>, upstream: Option<Upstream>, companion: Option<Companion>)
      ensures this.nodes == nodes && this.service == service && this.upstream == upstream && this.companion == companion
    {
      this.nodes, this.service, this.upstream, this.companion := nodes, service, upstream, companion;
    }

    method Reconcile(isV4: string -> bool, fl: Faults) returns (ok: bool)
      modifies this`companion
      ensures ok ==> companion == Target(isV4, upstream, AllIPs(nodes), CanaryPorts(service), old(companion))
      ensures !ok ==> companion == old(companion)
      ensures ok <==>
                && !fl.upstream
                && if !Wanted(upstream) then !fl.write
                   else !fl.nodes && (AllIPs(nodes) == {} ||
                                      (!fl.service && (CanaryPorts(service) == [] || !fl.write)))
    {
      if fl.upstream {
        return false;
      }
      var selected := false;
      if upstream.Some? {
        selected := FindHostNetworkSelector(upstream.value);
      }
      if !selected {
        if fl.write {
          return false;
        }
        companion := None;
        return true;
      }
      if fl.nodes {
        return false;
      }
      var ips := ListNodeIPs(nodes);
      if ips == [] {
        assert forall ip :: ip !in AllIPs(nodes);
        return true;
      }
      assert ips[0] in AllIPs(nodes);
      if fl.service {
        return false;
      }
      var ports := CanaryServicePorts(service);
      if ports == [] {
        return true;
      }
      if fl.write {
        return false;
      }
      var policy := BuildWorkaroundPolicy(isV4, upstream.value, ips, ports);
      companion := Some(policy);
      ok := true;
    }
  }

  // ---------------------------------------------------------------- progress

  /** The worker takes `req` and runs to the end without failures or interference. */
  ghost function Undisturbed(isV4: string -> bool, s: State, req: Request): State {
    Run(isV4, s, [Dequeue(req), Proceed, Proceed, Proceed, Proceed])
  }

  lemma UndisturbedIs(isV4: string -> bool, s: State, req: Request)
    ensures Undisturbed(isV4, s, req) ==
            Advance(isV4, Advance(isV4, Advance(isV4, Advance(isV4, Next(isV4, s, Dequeue(req))))))
  {
    var none: seq<Event> := [];
    RunOne(isV4, s, none, Dequeue(req));
    RunOne(isV4, s, [Dequeue(req)], Proceed);
    RunOne(isV4, s, [Dequeue(req), Proceed], Proceed);
    RunOne(isV4, s, [Dequeue(req), Proceed, Proceed], Proceed);
    RunOne(isV4, s, [Dequeue(req), Proceed, Proceed, Proceed], Proceed);
    assert none + [Dequeue(req)] == [Dequeue(req)];
    assert [Dequeue(req)] + [Proceed] == [Dequeue(req), Proceed];
    assert [Dequeue(req), Proceed] + [Proceed] == [Dequeue(req), Proceed, Proceed];
    assert [Dequeue(req), Proceed, Proceed] + [Proceed] == [Dequeue(req), Proceed, Proceed, Proceed];
    assert [Dequeue(req), Proceed, Proceed, Proceed] + [Proceed] == [Dequeue(req), Proceed, Proceed, Proceed, Proceed];
  }

  lemma RunOne(isV4: string -> bool, s: State, events: seq<Event>, e: Event)
    ensures Run(isV4, s, events + [e]) == Next(isV4, Run(isV4, s, events), e)
  {
    assert (events + [e])[..|events|] == events;
  }

  /** From any state with the worker idle, one undisturbed Reconcile settles the companion and a second one
      changes nothing and queues nothing, so the queue does empty. */
  lemma UndisturbedSettles(isV4: string -> bool, s: State, req: Request)
    requires s.phase.Idle? && req in s.queue
    ensures var after := Undisturbed(isV4, s, req);
            && after.phase.Idle? && Settled(isV4, after)
            && after.queue == s.queue - {req} + (if after.companion == s.companion then {} else {COMPANION_REQUEST})
            && after.companion == Target(isV4, s.upstream, ClusterIPs(s.nodes), CanaryPorts(s.service), s.companion)
            && (Settled(isV4, s) ==> after == s.(queue := s.queue - {req}))
  {
    UndisturbedLeaves(isV4, s, req);
  }

  lemma UndisturbedLeaves(isV4: string -> bool, s: State, req: Request)
    requires s.phase.Idle? && req in s.queue
    ensures Undisturbed(isV4, s, req) ==
            StoreCompanion(s.(queue := s.queue - {req}),
                           Target(isV4, s.upstream, ClusterIPs(s.nodes), CanaryPorts(s.service), s.companion))
  {
    UndisturbedIs(isV4, s, req);
    FourSteps(isV4, s.(queue := s.queue - {req}, phase := Started(req)), s);
  }

  lemma FourSteps(isV4: string -> bool, t: State, s: State)
    requires t.phase.Started? && t == s.(queue := t.queue, phase := t.phase)
    ensures var after := Advance(isV4, Advance(isV4, Advance(isV4, Advance(isV4, t))));
            after == StoreCompanion(t.(phase := Idle),
                                    Target(isV4, s.upstream, ClusterIPs(s.nodes), CanaryPorts(s.service), s.companion))
  {
    NothingToList(s.nodes);
    var a := Advance(isV4, t);
    var b := Advance(isV4, a);
    if !Wanted(s.upstream) {
      assert a.phase.Deleting? && b.phase.Idle?;
    } else if ClusterIPs(s.nodes) == {} {
      assert a.phase.GotUpstream? && b == t.(phase := Idle);
    } else {
      assert b.phase.GotNodes?;
    }
  }

  // ---------------------------------------------------------------- without addresses or without ports

  /** The cluster asks for a companion that cannot be built, because the Service has no usable ports. */
  ghost predicate LacksPorts(s: State) { Wanted(s.upstream) && CanaryPorts(s.service) == [] }

  /** The same because no node has an address. */
  ghost predicate LacksAddresses(s: State) { Wanted(s.upstream) && ClusterIPs(s.nodes) == {} }

  /** The worker has not read so much that it can store something. */
  ghost predicate CannotStore(s: State, byPorts: bool) {
    !s.phase.Deleting? && !s.phase.GotPorts? && (!byPorts ==> !s.phase.GotNodes?)
  }

  ghost predicate Lacks(s: State, byPorts: bool) { if byPorts then LacksPorts(s) else LacksAddresses(s) }

  lemma LackingStep(isV4: string -> bool, s: State, e: Event, byPorts: bool)
    requires Lacks(s, byPorts) && CannotStore(s, byPorts) && !e.CompanionEdited?
    ensures var after := Next(isV4, s, e); after.companion == s.companion && CannotStore(after, byPorts)
  {
    NothingToList(s.nodes);
  }

  /** As long as one of the two is missing, the old companion stays, whatever else happens and whoever left since. */
  lemma {:induction false} KeptWhileLacking(isV4: string -> bool, s: State, events: seq<Event>, byPorts: bool)
    requires s.phase.Idle? && forall e :: e in events ==> !e.CompanionEdited?
    requires forall i :: 0 <= i < |events| ==> Lacks(Run(isV4, s, events[..i]), byPorts)
    ensures Run(isV4, s, events).companion == s.companion && CannotStore(Run(isV4, s, events), byPorts)
  {
    if events != [] {
      var front := events[..|events| - 1];
      forall i | 0 <= i < |front| ensures Lacks(Run(isV4, s, front[..i]), byPorts) {
        assert front[..i] == events[..i];
      }
      KeptWhileLacking(isV4, s, front, byPorts);
      LackingStep(isV4, Run(isV4, s, front), events[|events| - 1], byPorts);
    }
  }

  /** What the current cluster asks for. */
  ghost function Asked(isV4: string -> bool, s: State): Option<Companion> {
    if Wanted(s.upstream)
    then Some(Build(isV4, s.upstream.value, SortedList(ClusterIPs(s.nodes)), CanaryPorts(s.service))) else None
  }

  /** Over every interleaving, with nothing pending or running the companion is what the current cluster asks for,
      unless ports or addresses for it are lacking; and another Reconcile would not change it. */
  lemma AskedExactly(isV4: string -> bool, s: State, events: seq<Event>, req: Request)
    requires Initial(s)
    ensures var after := Run(isV4, s, events);
            after.queue == {} && after.phase.Idle? ==>
              && (!LacksPorts(after) && !LacksAddresses(after) ==> after.companion == Asked(isV4, after))
              && Undisturbed(isV4, Enqueue(after, req), req).companion == after.companion
  {
    QuiescentMeansSettled(isV4, s, events);
    var after := Run(isV4, s, events);
    if after.queue == {} && after.phase.Idle? {
      UndisturbedSettles(isV4, Enqueue(after, req), req);
    }
  }

  /** The controller starts in a cluster with one node and one port. */
  const SERVED_START := State(map["n" := [Address(InternalIP, "10.0.0.1")]], Some([ServicePort("TCP", 8080, 0)]),
                              Some(SELECTING), None, {UPSTREAM_REQUEST}, Idle)

  /** The same cluster, settled. */
  const OLD := Companion("u", ["10.0.0.1"], [8080])
  const SERVED := State(map["n" := [Address(InternalIP, "10.0.0.1")]], Some([ServicePort("TCP", 8080, 0)]),
                        Some(SELECTING), Some(OLD), {}, Idle)

  const SERVICE_GONE: seq<Event> := [
    ServiceChanged(None), Dequeue(UPSTREAM_REQUEST), Proceed, Proceed, Proceed,
    NodeStored("n", [Address(InternalIP, "10.0.0.2")]), Dequeue(Request("", "n")), Proceed, Proceed, Proceed]

  lemma RunStep(isV4: string -> bool, s: State, events: seq<Event>, i: nat)
    requires i < |events|
    ensures Run(isV4, s, events[..i + 1]) == Next(isV4, Run(isV4, s, events[..i]), events[i])
  {
    assert events[..i + 1][..i] == events[..i];
  }

  /** The Service goes away and then the node gets another address.  Both changes are reconciled, nothing is pending,
      and the companion still admits the old address. */
  lemma ServiceGoneKeepsOld(isV4: string -> bool)
    requires isV4("10.0.0.1")
    ensures Initial(SERVED_START)
    ensures var served := Undisturbed(isV4, Undisturbed(isV4, SERVED_START, UPSTREAM_REQUEST), COMPANION_REQUEST);
            var after := Run(isV4, served, SERVICE_GONE);
            && served.companion == Some(OLD)
            && after.queue == {} && after.phase.Idle? && after.companion == Some(OLD)
            && "10.0.0.1" !in ClusterIPs(after.nodes)
  {
    var none: seq<Event> := [];
    assert SERVICE_GONE[..0] == none && SERVICE_GONE[..10] == SERVICE_GONE;
    ServedSettles(isV4);
    FirstPass(isV4);
    SecondPass(isV4, Run(isV4, SERVED, SERVICE_GONE[..5]));
    RunStep(isV4, SERVED, SERVICE_GONE, 5);
    RunStep(isV4, SERVED, SERVICE_GONE, 6);
    RunStep(isV4, SERVED, SERVICE_GONE, 7);
    RunStep(isV4, SERVED, SERVICE_GONE, 8);
    RunStep(isV4, SERVED, SERVICE_GONE, 9);
  }

  lemma ServedSettles(isV4: string -> bool)
    requires isV4("10.0.0.1")
    ensures Undisturbed(isV4, Undisturbed(isV4, SERVED_START, UPSTREAM_REQUEST), COMPANION_REQUEST) == SERVED
  {
    var first := Undisturbed(isV4, SERVED_START, UPSTREAM_REQUEST);
    ServedPolicy(isV4);
    UndisturbedLeaves(isV4, SERVED_START, UPSTREAM_REQUEST);
    assert first == SERVED.(queue := {COMPANION_REQUEST});
    UndisturbedLeaves(isV4, first, COMPANION_REQUEST);
  }

  lemma ServedPolicy(isV4: string -> bool)
    requires isV4("10.0.0.1")
    ensures Wanted(SERVED_START.upstream) && ClusterIPs(SERVED_START.nodes) == {"10.0.0.1"}
    ensures CanaryPorts(SERVED_START.service) == [8080]
    ensures Build(isV4, SELECTING, SortedList({"10.0.0.1"}), [8080]) == OLD
  {
    var svc := SERVED_START.service.value;
    assert svc[..0] == [] && PortsOf(svc[..0]) == [];
    assert SelectsHostNetwork(SELECTING.ingress[0][0]);
    var node := SERVED_START.nodes["n"];
    assert node[0] in node && "10.0.0.1" in IPsOf(node) && "10.0.0.1" in ClusterIPs(SERVED_START.nodes);
    SortedListIs({"10.0.0.1"});
    SortedUnique(SortedList({"10.0.0.1"}), ["10.0.0.1"], {"10.0.0.1"});
    assert ["10.0.0.1"][..0] == [];
  }

  lemma FirstPass(isV4: string -> bool)
    ensures Run(isV4, SERVED, SERVICE_GONE[..5]) == SERVED.(service := None)
  {
    var none: seq<Event> := [];
    assert SERVICE_GONE[..0] == none;
    RunStep(isV4, SERVED, SERVICE_GONE, 0);
    RunStep(isV4, SERVED, SERVICE_GONE, 1);
    RunStep(isV4, SERVED, SERVICE_GONE, 2);
    RunStep(isV4, SERVED, SERVICE_GONE, 3);
    RunStep(isV4, SERVED, SERVICE_GONE, 4);
    PortlessPass(isV4, SERVED.(service := None), UPSTREAM_REQUEST, "n", "10.0.0.1");
  }

  /** One Reconcile of a cluster with one node and no Service changes nothing. */
  lemma PortlessPass(isV4: string -> bool, s: State, req: Request, name: string, ip: string)
    requires s.upstream == Some(SELECTING) && s.service.None? && s.phase.Idle? && s.queue == {}
    requires name in s.nodes && s.nodes[name] == [Address(InternalIP, ip)]
    ensures Advance(isV4, Advance(isV4, Advance(isV4, s.(phase := Started(req))))) == s
  {
    assert SelectsHostNetwork(SELECTING.ingress[0][0]);
    assert s.nodes[name][0] in s.nodes[name] && ip in IPsOf(s.nodes[name]) && ip in ClusterIPs(s.nodes);
    NothingToList(s.nodes);
  }

  lemma SecondPass(isV4: string -> bool, s: State)
    requires s == SERVED.(service := None)
    ensures var moved := Next(isV4, s, SERVICE_GONE[5]);
            var started := Next(isV4, moved, SERVICE_GONE[6]);
            var after := Advance(isV4, Advance(isV4, Advance(isV4, started)));
            && after.queue == {} && after.phase.Idle? && after.companion == Some(OLD)
            && "10.0.0.1" !in ClusterIPs(after.nodes)
  {
    var old_, new_ := [Address(InternalIP, "10.0.0.1")], [Address(InternalIP, "10.0.0.2")];
    assert old_[0] in old_ && "10.0.0.1" in IPsOf(old_) && "10.0.0.1" !in IPsOf(new_);
    var t := s.(nodes := s.nodes["n" := new_]);
    assert Next(isV4, s, SERVICE_GONE[5]) == Enqueue(t, Request("", "n"));
    PortlessPass(isV4, t, Request("", "n"), "n", "10.0.0.2");
    assert forall ip :: ip in ClusterIPs(t.nodes) ==> ip in IPsOf(new_);
  }

  // ---------------------------------------------------------------- a cluster without IPv4 addresses

  const V6_NODE: Node := [Address(InternalIP, "fd00::1")]
  const SELECTING := Upstream("u", [[Some(map[HOST_NETWORK_LABEL := ""])]])

  /** The controller starts in a cluster with one node, which has an IPv6 address only. */
  const V6_START := State(map["n" := V6_NODE], Some([ServicePort("TCP", 8080, 0)]), Some(SELECTING), None,
                          {UPSTREAM_REQUEST}, Idle)

  /** Two Reconciles later nothing is pending, and the settled companion admits every source. */
  lemma V6OnlyOpens(parse: Parser)
    requires parse("fd00::1").Some? ==> parse("fd00::1").value.V6? && !Mapped(parse("fd00::1").value)
    ensures Initial(V6_START)
    ensures var isV4 := HasV4Form(parse);
            var after := Undisturbed(isV4, Undisturbed(isV4, V6_START, UPSTREAM_REQUEST), COMPANION_REQUEST);
            && after.queue == {} && after.phase.Idle? && Settled(isV4, after)
            && after.companion.Some? && after.companion.value.ports == [8080]
            && forall source :: Admits(parse, after.companion.value, source)
  {
    var isV4 := HasV4Form(parse);
    var policy := Build(isV4, SELECTING, SortedList(ClusterIPs(V6_START.nodes)), CanaryPorts(V6_START.service));
    var first := Undisturbed(isV4, V6_START, UPSTREAM_REQUEST);
    V6Policy(isV4, policy);
    UndisturbedSettles(isV4, V6_START, UPSTREAM_REQUEST);
    assert first.companion == Some(policy);
    UndisturbedSettles(isV4, first, COMPANION_REQUEST);
  }

  lemma V6Policy(isV4: string -> bool, policy: Companion)
    requires policy == Build(isV4, SELECTING, SortedList(ClusterIPs(V6_START.nodes)), CanaryPorts(V6_START.service))
    requires !isV4("fd00::1")
    ensures Wanted(V6_START.upstream) && ClusterIPs(V6_START.nodes) != {}
    ensures CanaryPorts(V6_START.service) == [8080] && policy.peers == []
  {
    var svc := V6_START.service.value;
    assert svc[..0] == [] && PortsOf(svc[..0]) == [];
    assert SelectsHostNetwork(SELECTING.ingress[0][0]);
    assert V6_NODE[0] in V6_NODE && "fd00::1" in IPsOf(V6_START.nodes["n"]);
    assert "n" in V6_START.nodes && "fd00::1" in ClusterIPs(V6_START.nodes);
    assert forall ip :: ip in ClusterIPs(V6_START.nodes) ==> ip == "fd00::1";
    SortedListIs(ClusterIPs(V6_START.nodes));
    NoPeers(isV4, SortedList(ClusterIPs(V6_START.nodes)));
  }
}
