/** The node controller: tagging each node's segment port and caching the outcome. */
module NodeTags {
  import opened Common
  import opened StatusManager

  datatype Tag = Tag(scope: string, tag: string)

  const NODE_SCOPE := "ncp/node_name"
  const CLUSTER_SCOPE := "ncp/cluster"

  /** What NSX answers for a segment port: its tags, the addresses bound to it, and whether
      its segment id and its state can be determined. */
  datatype Port = Port(id: string, tags: seq<Tag>, bindings: seq<string>, hasSegment: bool, stateReadable: bool)

  // ---------------------------------------------------------------- selecting the port

  /** Distinct node addresses bound to a port, over its first `n` bindings. */
  ghost function Matches(p: Port, addresses: seq<string>, n: nat): set<string>
    requires n <= |p.bindings|
  {
    set i | 0 <= i < n && p.bindings[i] in addresses :: p.bindings[i]
  }

  ghost predicate Readable(ports: seq<Port>) {
    forall i :: 0 <= i < |ports| ==> ports[i].hasSegment && ports[i].stateReadable
  }

  /** The filtered list: each port once for each distinct node address bound to it. */
  ghost function Filtered(ports: seq<Port>, addresses: seq<string>): seq<Port> {
    if ports == [] then []
    else
      var p := ports[|ports| - 1];
      Filtered(ports[..|ports| - 1], addresses) + seq(|Matches(p, addresses, |p.bindings|)|, _ => p)
  }

  lemma ExtendMatches(p: Port, addresses: seq<string>, n: nat)
    requires n < |p.bindings|
    ensures Matches(p, addresses, n + 1) ==
            Matches(p, addresses, n) + if p.bindings[n] in addresses then {p.bindings[n]} else {}
  {
  }

  /** One port's contribution to the filtered list. */
  method MatchPort(p: Port, addresses: seq<string>) returns (found: seq<Port>)
    ensures |found| == |Matches(p, addresses, |p.bindings|)|
    ensures forall i :: 0 <= i < |found| ==> found[i] == p
  {
    var collected: seq<string> := [];
    found := [];
    for i := 0 to |p.bindings|
      invariant NoDuplicates(collected) && Elements(collected) == Matches(p, addresses, i) && |found| == |collected|
      invariant forall j :: 0 <= j < |found| ==> found[j] == p
    {
      ExtendMatches(p, addresses, i);
      var address := p.bindings[i];
      if address in addresses && address !in collected {
        collected := collected + [address];
        found := found + [p];
      }
    }
    DistinctCardinality(collected);
  }

  /** `filterPortsByNodeAddresses`; `None` is an error. */
  method FilterPortsByNodeAddresses(ports: seq<Port>, addresses: seq<string>) returns (r: Option<seq<Port>>)
    ensures r == if Readable(ports) && |Filtered(ports, addresses)| == 1 then Some(Filtered(ports, addresses)) else None
  {
    var filtered: seq<Port> := [];
    var erroneous := false;
    for i := 0 to |ports|
      invariant erroneous <==> !Readable(ports[..i])
      invariant !erroneous ==> filtered == Filtered(ports[..i], addresses)
    {
      assert ports[..i + 1][..i] == ports[..i] && ports[..i + 1][i] == ports[i];
      var p := ports[i];
      if !p.hasSegment || !p.stateReadable {
        assert !Readable(ports[..i + 1]);
        erroneous := true;
        continue;
      }
      var found := MatchPort(p, addresses);
      assert found == seq(|Matches(p, addresses, |p.bindings|)|, _ => p);
      filtered := filtered + found;
    }
    assert ports[..|ports|] == ports;
    if erroneous || |filtered| != 1 {
      return None;
    }
    return Some(filtered);
  }

  /** The port to tag: the only candidate, or the only one the filter leaves. */
  ghost function Selected(ports: seq<Port>, addresses: seq<string>): Option<Port> {
    if |ports| == 1 then Some(ports[0])
    else if Readable(ports) && |Filtered(ports, addresses)| == 1 then Some(Filtered(ports, addresses)[0])
    else None
  }

  /** The filtered ports are the candidates with a node address bound to them. */
  lemma {:induction false} FilteredIsBound(ports: seq<Port>, addresses: seq<string>, p: Port)
    ensures p in Filtered(ports, addresses) <==> p in ports && exists a :: a in addresses && a in p.bindings
  {
    if ports != [] {
      var front, last := ports[..|ports| - 1], ports[|ports| - 1];
      FilteredIsBound(front, addresses, p);
      var m := Matches(last, addresses, |last.bindings|);
      var tail := seq(|m|, _ => last);
      assert p in tail <==> p == last && |m| > 0 by {
        if p == last && |m| > 0 {
          assert tail[0] == last;
        }
      }
      MatchesIs(last, addresses);
      assert |m| > 0 <==> exists a :: a in m;
      assert p in ports <==> p in front || p == last;
    }
  }

  lemma MatchesIs(p: Port, addresses: seq<string>)
    ensures forall a :: a in Matches(p, addresses, |p.bindings|) <==> a in addresses && a in p.bindings
  {
  }

  /** A node address bound to a candidate. */
  ghost predicate Matching(ports: seq<Port>, addresses: seq<string>, i: int, a: string) {
    0 <= i < |ports| && a in addresses && a in ports[i].bindings
  }

  datatype Pair = Pair(i: int, a: string)

  ghost function Pairs(ports: seq<Port>, addresses: seq<string>): set<Pair> {
    set i, a | 0 <= i < |ports| && a in addresses && a in ports[i].bindings :: Pair(i, a)
  }

  ghost function Paired(i: int, m: set<string>): set<Pair> { set a | a in m :: Pair(i, a) }

  lemma {:induction false} PairedCount(i: int, m: set<string>)
    ensures |Paired(i, m)| == |m|
  {
    if m != {} {
      var a :| a in m;
      PairedCount(i, m - {a});
      assert Paired(i, m) == Paired(i, m - {a}) + {Pair(i, a)};
    }
  }

  lemma PairsStep(front: seq<Port>, last: Port, addresses: seq<string>)
    ensures var added := Paired(|front|, Matches(last, addresses, |last.bindings|));
            Pairs(front + [last], addresses) == Pairs(front, addresses) + added && Pairs(front, addresses) !! added
  {
    var ports := front + [last];
    MatchesIs(last, addresses);
    forall x ensures x in Pairs(ports, addresses) <==>
                     x in Pairs(front, addresses) || x in Paired(|front|, Matches(last, addresses, |last.bindings|)) {
      if 0 <= x.i < |front| {
        assert ports[x.i] == front[x.i];
      }
    }
  }

  /** The filter leaves one entry for each matching pair of a candidate and a node address. */
  lemma {:induction false} FilteredCount(ports: seq<Port>, addresses: seq<string>)
    ensures |Filtered(ports, addresses)| == |Pairs(ports, addresses)|
  {
    if ports != [] {
      var front, last := ports[..|ports| - 1], ports[|ports| - 1];
      var m := Matches(last, addresses, |last.bindings|);
      FilteredCount(front, addresses);
      PairedCount(|front|, m);
      MatchesIs(last, addresses);
      PairsStep(front, last, addresses);
      assert front + [last] == ports;
    }
  }

  /** The filter leaves one port if and only if exactly one pair of a candidate and a node address matches. */
  lemma FilteredOneExactly(ports: seq<Port>, addresses: seq<string>)
    ensures |Filtered(ports, addresses)| == 1 <==>
            exists i, a :: Matching(ports, addresses, i, a) &&
              forall j, b :: Matching(ports, addresses, j, b) ==> j == i && b == a
  {
    var all := Pairs(ports, addresses);
    FilteredCount(ports, addresses);
    forall j, b ensures Matching(ports, addresses, j, b) <==> Pair(j, b) in all {
    }
    if |all| == 1 {
      var x :| x in all;
      assert |all - {x}| == 0;
      assert Matching(ports, addresses, x.i, x.a);
      forall j, b | Matching(ports, addresses, j, b) ensures j == x.i && b == x.a {
        assert Pair(j, b) in all;
      }
    }
    if i, a :| Matching(ports, addresses, i, a) &&
               forall j, b :: Matching(ports, addresses, j, b) ==> j == i && b == a {
      forall x ensures x in all <==> x == Pair(i, a) {
        assert x in all ==> Matching(ports, addresses, x.i, x.a);
      }
      assert all == {Pair(i, a)};
    }
  }

  lemma SelectedIsCandidate(ports: seq<Port>, addresses: seq<string>)
    ensures var p := Selected(ports, addresses); p.Some? ==> p.value in ports
  {
    if |ports| != 1 && Selected(ports, addresses).Some? {
      FilteredIsBound(ports, addresses, Filtered(ports, addresses)[0]);
    }
  }

  /** The port of the only matching pair. */
  ghost predicate OnlyMatch(ports: seq<Port>, addresses: seq<string>, p: Port) {
    exists i, a :: Matching(ports, addresses, i, a) && ports[i] == p &&
      forall j, b :: Matching(ports, addresses, j, b) ==> j == i && b == a
  }

  /** The only candidate is taken as it is; among several the one port of the only match, if all can be read. */
  lemma SelectedExactly(ports: seq<Port>, addresses: seq<string>, p: Port)
    ensures Selected(ports, addresses) == Some(p) <==>
              if |ports| == 1 then p == ports[0]
              else (forall q :: q in ports ==> q.hasSegment && q.stateReadable) && OnlyMatch(ports, addresses, p)
  {
    if |ports| != 1 {
      FilteredOneExactly(ports, addresses);
      assert Readable(ports) <==> forall q :: q in ports ==> q.hasSegment && q.stateReadable;
      if |Filtered(ports, addresses)| == 1 {
        FilteredIsBound(ports, addresses, Filtered(ports, addresses)[0]);
        var q := Filtered(ports, addresses)[0];
        var i, a :| Matching(ports, addresses, i, a) &&
                    forall j, b :: Matching(ports, addresses, j, b) ==> j == i && b == a;
        var k, c :| 0 <= k < |ports| && ports[k] == q && c in addresses && c in q.bindings;
        assert Matching(ports, addresses, k, c);
      }
    }
  }

  /** The only right port is rejected when both addresses of a dual-stack node are bound to it. */
  lemma DualStackRejected(right: Port, other: Port)
    requires right.bindings == ["10.0.0.1", "fd00::1"] && other.bindings == []
    ensures Selected([right, other], ["10.0.0.1", "fd00::1"]).None?
  {
    var ports, addresses := [right, other], ["10.0.0.1", "fd00::1"];
    FilteredOneExactly(ports, addresses);
    assert right.bindings[0] == "10.0.0.1" && right.bindings[1] == "fd00::1";
    assert Matching(ports, addresses, 0, "10.0.0.1") && Matching(ports, addresses, 0, "fd00::1");
    assert "10.0.0.1" != "fd00::1";
  }

  // ---------------------------------------------------------------- the tag loop

  /** Tags after completion: the missing ones appended, node tag first. */
  function Completed(tags: seq<Tag>, node: string, cluster: string): seq<Tag> {
    tags +
    (if Tag(NODE_SCOPE, node) in tags then [] else [Tag(NODE_SCOPE, node)]) +
    (if Tag(CLUSTER_SCOPE, cluster) in tags then [] else [Tag(CLUSTER_SCOPE, cluster)])
  }

  /** A completed port carries both tags and all its earlier ones, and completing it again changes nothing. */
  lemma CompletedIs(tags: seq<Tag>, node: string, cluster: string)
    ensures var r := Completed(tags, node, cluster);
            && Tag(NODE_SCOPE, node) in r && Tag(CLUSTER_SCOPE, cluster) in r
            && tags <= r
            && (forall t :: t in r ==> t in tags || t == Tag(NODE_SCOPE, node) || t == Tag(CLUSTER_SCOPE, cluster))
            && (Tag(NODE_SCOPE, node) !in tags && Tag(CLUSTER_SCOPE, cluster) !in tags ==>
                r == tags + [Tag("ncp/node_name", node), Tag("ncp/cluster", cluster)])
            && Completed(r, node, cluster) == r
  {
  }

  /** The tag loop body: whether an update is needed, and the tags to send. */
  method CompleteTags(tags: seq<Tag>, node: string, cluster: string) returns (update: bool, r: seq<Tag>)
    ensures r == Completed(tags, node, cluster)
    ensures update <==> r != tags
  {
    var foundNode, foundCluster := false, false;
    for i := 0 to |tags|
      invariant foundNode <==> Tag(NODE_SCOPE, node) in tags[..i]
      invariant foundCluster <==> Tag(CLUSTER_SCOPE, cluster) in tags[..i]
    {
      if tags[i].scope == NODE_SCOPE && tags[i].tag == node {
        foundNode := true;
      } else if tags[i].scope == CLUSTER_SCOPE && tags[i].tag == cluster {
        foundCluster := true;
      }
    }
    assert tags[..|tags|] == tags;
    r := tags;
    if foundNode && foundCluster {
      return false, r;
    }
    if !foundNode {
      r := r + [Tag(NODE_SCOPE, node)];
    }
    if !foundCluster {
      r := r + [Tag(CLUSTER_SCOPE, cluster)];
    }
    update := true;
  }

  // ---------------------------------------------------------------- Reconcile

  datatype Address = Address(hostName: bool, ip: string)

  datatype NodeLookup = NodeFound(addresses: seq<Address>) | NodeMissing | NodeUnreadable

  /** What one Reconcile is told: the node listing used to fill an empty cache, the node itself, and NSX's answers.
      `ports` is `None` when creating the clients or finding the VM, its attachments or its ports failed; `why` is
      the text of the error, if there is one. */
  datatype Answers = Answers(
    listing: Option<seq<string>>,
    lookup: NodeLookup,
    cluster: string,
    ports: Option<seq<Port>>,
    updateFails: bool,
    why: string)

  /** The tags NSX stores for each port. */
  type Stored = map<string, seq<Tag>>

  ghost function StoredTags(stored: Stored, id: string): seq<Tag> { if id in stored then stored[id] else [] }

  /** What an update that is sent makes of them. */
  ghost function AfterUpdate(stored: Stored, id: string, tags: seq<Tag>, fails: bool): Stored {
    if fails then stored else stored[id := tags]
  }

  /** A recorded success: the candidates, the port selected among them, and the tags NSX stored for it then. */
  datatype Tagging = Tagging(
    node: string,
    cluster: string,
    candidates: seq<Port>,
    addresses: seq<string>,
    port: Port,
    after: seq<Tag>)

  type Cache = map<string, NodeStatus>

  /** `degraded`: the ClusterNode failure is set. */
  datatype State = State(cache: Cache, degraded: bool, stored: Stored, log: seq<Tagging>)

  function NotProcessed(names: seq<string>): Cache {
    map n | n in names :: NodeStatus([], false, "Node " + n + " has not yet been processed")
  }

  /** The node's addresses other than host names, each once. */
  function NodeAddresses(addrs: seq<Address>): seq<string> {
    if addrs == [] then []
    else
      var front, a := NodeAddresses(addrs[..|addrs| - 1]), addrs[|addrs| - 1];
      if !a.hostName && a.ip !in front then front + [a.ip] else front
  }

  /** No address twice, all that are not host names, in the order of their first occurrence. */
  lemma {:induction false} AddressesAre(addrs: seq<Address>)
    ensures NoDuplicates(NodeAddresses(addrs))
    ensures forall ip :: ip in NodeAddresses(addrs) <==> Address(false, ip) in addrs
    ensures forall k :: 0 <= k <= |addrs| ==> NodeAddresses(addrs[..k]) <= NodeAddresses(addrs)
  {
    if addrs != [] {
      var front := addrs[..|addrs| - 1];
      AddressesAre(front);
      forall k | 0 <= k <= |addrs| ensures NodeAddresses(addrs[..k]) <= NodeAddresses(addrs) {
        if k < |addrs| {
          assert front[..k] == addrs[..k];
        } else {
          assert addrs[..k] == addrs;
        }
      }
      assert forall ip :: Address(false, ip) in addrs <==>
               Address(false, ip) in front || addrs[|front|] == Address(false, ip);
    } else {
      assert forall k :: 0 <= k <= |addrs| ==> addrs[..k] == addrs;
    }
  }

  ghost function Publish(s: State, cache: Cache): State {
    State(cache, AnyUnsuccessful(cache), s.stored, s.log)
  }

  ghost predicate Skips(cache: Cache, node: string, a: Answers) {
    && a.lookup.NodeFound? && node in cache
    && cache[node].success && cache[node].addresses == NodeAddresses(a.lookup.addresses)
  }

  ghost function Failure(s: State, cache: Cache, node: string, addresses: seq<string>, why: string): State {
    Publish(s, cache[node := NodeStatus(addresses, false, why)])
  }

  /** A success is recorded with what NSX stores for the port. */
  ghost function Success(s: State, cache: Cache, node: string, addresses: seq<string>, a: Answers, port: Port): State
    requires a.ports.Some?
  {
    var t := Tagging(node, a.cluster, a.ports.value, addresses, port, StoredTags(s.stored, port.id));
    Publish(s, cache[node := NodeStatus(addresses, true, "")]).(log := s.log + [t])
  }

  ghost function Reconciled(s: State, node: string, a: Answers): State {
    if |s.cache| == 0 && a.listing.None? then s
    else Processed(s, if |s.cache| == 0 then NotProcessed(a.listing.value) else s.cache, node, a)
  }

  ghost function Processed(s: State, cache: Cache, node: string, a: Answers): State {
    match a.lookup
    case NodeMissing => Publish(s, cache - {node})
    case NodeUnreadable => Failure(s, cache, node, [], a.why)
    case NodeFound(addrs) =>
      if Skips(cache, node, a) then s.(cache := cache)
      else Tagged(s, cache, node, NodeAddresses(addrs), a)
  }

  ghost function Tagged(s: State, cache: Cache, node: string, addresses: seq<string>, a: Answers): State {
    var port := if a.ports.Some? && |a.ports.value| > 0 then Selected(a.ports.value, addresses) else None;
    if port.None? then Failure(s, cache, node, addresses, a.why)
    else
      var tags := Completed(port.value.tags, node, a.cluster);
      if tags == port.value.tags then Success(s, cache, node, addresses, a, port.value)
      else if !port.value.hasSegment then Failure(s, cache, node, addresses, a.why)
      else
        var sent := s.(stored := AfterUpdate(s.stored, port.value.id, tags, a.updateFails));
        if a.updateFails then Failure(sent, cache, node, addresses, a.why)
        else Success(sent, cache, node, addresses, a, port.value)
  }

  // ---------------------------------------------------------------- what one Reconcile decides

  /** NSX answers with the tags it stores. */
  ghost predicate Agrees(a: Answers, stored: Stored) {
    a.ports.Some? ==> forall p :: p in a.ports.value ==> p.id in stored && stored[p.id] == p.tags
  }

  /** One port is selected, and it carries both tags already or the update is sent and succeeds. */
  ghost predicate CanTag(a: Answers, node: string, addresses: seq<string>) {
    && a.ports.Some? && |a.ports.value| > 0 && Selected(a.ports.value, addresses).Some?
    && var p := Selected(a.ports.value, addresses).value;
    || (Tag("ncp/node_name", node) in p.tags && Tag("ncp/cluster", a.cluster) in p.tags)
    || (p.hasSegment && !a.updateFails)
  }

  /** The cache a Reconcile works on: every listed node is unsuccessful at first. */
  ghost predicate Filled(s: State, a: Answers, cache: Cache) {
    if |s.cache| > 0 then cache == s.cache
    else
      && a.listing.Some? && (forall n :: n in cache <==> n in a.listing.value)
      && forall n :: n in cache ==>
           cache[n] == NodeStatus([], false, "Node " + n + " has not yet been processed")
  }

  /** A Reconcile changes nothing when the nodes cannot be listed or the node is a success with the same addresses; it
      forgets a missing node; and in every other case the node's entry is a success exactly when its port could be
      tagged, no other entry changes, and the failure says whether some node is unsuccessful. */
  lemma ProcessesExactly(s: State, node: string, a: Answers) returns (cache: Cache)
    ensures |s.cache| == 0 && a.listing.None? ==> Reconciled(s, node, a) == s
    ensures |s.cache| > 0 || a.listing.Some? ==>
              && Filled(s, a, cache)
              && var r := Reconciled(s, node, a);
              && (r != s ==> (r.degraded <==> exists n :: n in r.cache && !r.cache[n].success))
              && (forall n :: n != node ==> (n in r.cache <==> n in cache) && (n in cache ==> r.cache[n] == cache[n]))
              && match a.lookup {
                   case NodeMissing => node !in r.cache
                   case NodeUnreadable => node in r.cache && r.cache[node] == NodeStatus([], false, a.why)
                   case NodeFound(addrs) =>
                     && node in r.cache && r.cache[node].addresses == NodeAddresses(addrs)
                     && if node in cache && cache[node].success && cache[node].addresses == NodeAddresses(addrs) then
                          r == s
                        else
                          && (r.cache[node].success <==> CanTag(a, node, NodeAddresses(addrs)))
                          && (!r.cache[node].success ==> r.cache[node].reason == a.why)
                 }
  {
    if |s.cache| == 0 {
      cache := if a.listing.Some? then NotProcessed(a.listing.value) else map[];
    } else {
      cache := s.cache;
    }
    if a.lookup.NodeFound? && !Skips(cache, node, a) {
      TaggedCases(s, cache, node, NodeAddresses(a.lookup.addresses), a);
    }
  }

  lemma TaggedCases(s: State, cache: Cache, node: string, addresses: seq<string>, a: Answers)
    ensures var r := Tagged(s, cache, node, addresses, a);
            && r.cache == cache[node :=
                 if CanTag(a, node, addresses) then NodeStatus(addresses, true, "")
                 else NodeStatus(addresses, false, a.why)]
            && r.degraded == AnyUnsuccessful(r.cache)
  {
    if a.ports.Some? && Selected(a.ports.value, addresses).Some? {
      CompletedExactly(Selected(a.ports.value, addresses).value.tags, node, a.cluster);
    }
  }

  lemma CompletedExactly(tags: seq<Tag>, node: string, cluster: string)
    ensures Completed(tags, node, cluster) == tags <==>
              Tag("ncp/node_name", node) in tags && Tag("ncp/cluster", cluster) in tags
  {
  }

  /** NSX's store changes only when an update was needed, sent and successful, and then only for the selected port,
      which keeps its tags and carries both afterwards.  An update that was needed but not sent or failed leaves the
      node unsuccessful and the failure set. */
  lemma StoresExactly(s: State, cache: Cache, node: string, addresses: seq<string>, a: Answers)
    requires a.ports.Some? && |a.ports.value| > 0 && Selected(a.ports.value, addresses).Some? && Agrees(a, s.stored)
    ensures var p := Selected(a.ports.value, addresses).value;
            var r := Tagged(s, cache, node, addresses, a);
            var due := !(Tag("ncp/node_name", node) in p.tags && Tag("ncp/cluster", a.cluster) in p.tags);
            && p.id in s.stored && p.id in r.stored && s.stored[p.id] == p.tags
            && (forall q :: q != p.id ==> (q in r.stored <==> q in s.stored))
            && (forall q :: q != p.id && q in s.stored ==> r.stored[q] == s.stored[q])
            && (due && (a.updateFails || !p.hasSegment) ==>
                  r.stored == s.stored && !r.cache[node].success && r.degraded)
            && (!due ==> r.stored == s.stored && r.cache[node].success)
            && (r.cache[node].success ==>
                  && s.stored[p.id] <= r.stored[p.id]
                  && Tag("ncp/node_name", node) in r.stored[p.id] && Tag("ncp/cluster", a.cluster) in r.stored[p.id]
                  && forall t :: t in r.stored[p.id] ==>
                       t in p.tags || t == Tag("ncp/node_name", node) || t == Tag("ncp/cluster", a.cluster))
  {
    SelectedIsCandidate(a.ports.value, addresses);
    var p := Selected(a.ports.value, addresses).value;
    CompletedExactly(p.tags, node, a.cluster);
    CompletedIs(p.tags, node, a.cluster);
    if !Tagged(s, cache, node, addresses, a).cache[node].success {
      assert AnyUnsuccessful(Tagged(s, cache, node, addresses, a).cache);
    }
  }

  // ---------------------------------------------------------------- runs

  datatype Event =
    | Reconcile(node: string, answers: Answers)
    | SwitchOff
    | SwitchOn
    | OutsideEdit(stored: Stored)

  /** `stale`: tagging was switched off, which clears the failure, and nothing was published since. */
  datatype World = World(state: State, enabled: bool, stale: bool)

  ghost predicate Publishes(s: State, node: string, a: Answers) {
    if |s.cache| == 0 then a.listing.Some? && !Skips(NotProcessed(a.listing.value), node, a)
    else !Skips(s.cache, node, a)
  }

  ghost function Next(w: World, e: Event): World {
    match e
    case Reconcile(node, a) =>
      if !w.enabled then w
      else World(Reconciled(w.state, node, a), true, w.stale && !Publishes(w.state, node, a))
    case SwitchOff => if w.enabled then World(w.state.(degraded := false), false, true) else w
    case SwitchOn => w.(enabled := true)
    case OutsideEdit(stored) => w.(state := w.state.(stored := stored))
  }

  ghost function Run(w: World, events: seq<Event>): World {
    if events == [] then w else Next(Run(w, events[..|events| - 1]), events[|events| - 1])
  }

  /** Every answer of the run agrees with what NSX stores at that time. */
  ghost predicate Honest(w: World, events: seq<Event>) {
    events != [] ==>
      var front, last := events[..|events| - 1], events[|events| - 1];
      Honest(w, front) && (last.Reconcile? ==> Agrees(last.answers, Run(w, front).state.stored))
  }

  /** A success stands for exactly one selected port, for which NSX stored both tags and all its earlier ones. */
  ghost predicate GoodTagging(t: Tagging) {
    && Selected(t.candidates, t.addresses) == Some(t.port)
    && t.port.tags <= t.after
    && Tag("ncp/node_name", t.node) in t.after && Tag("ncp/cluster", t.cluster) in t.after
  }

  ghost predicate Recorded(log: seq<Tagging>, node: string, addresses: seq<string>) {
    exists i :: 0 <= i < |log| && log[i].node == node && log[i].addresses == addresses
  }

  /** Every cached success has a recorded tagging. */
  ghost predicate SuccessesRecorded(cache: Cache, log: seq<Tagging>) {
    forall n :: n in cache && cache[n].success ==> Recorded(log, n, cache[n].addresses)
  }

  ghost predicate AllGood(log: seq<Tagging>) { forall i :: 0 <= i < |log| ==> GoodTagging(log[i]) }

  ghost predicate FailureShown(w: World) {
    !w.stale ==> (w.state.degraded <==> AnyUnsuccessful(w.state.cache))
  }

  lemma NextShowsFailure(w: World, e: Event)
    requires FailureShown(w)
    ensures FailureShown(Next(w, e))
  {
    if e.Reconcile? && w.enabled {
      if !Publishes(w.state, e.node, e.answers) && |w.state.cache| > 0 {
        assert Reconciled(w.state, e.node, e.answers) == w.state;
      }
    }
  }

  lemma ReconcileKeepsLog(s: State, node: string, a: Answers)
    requires AllGood(s.log) && SuccessesRecorded(s.cache, s.log) && Agrees(a, s.stored)
    ensures var r := Reconciled(s, node, a); AllGood(r.log) && SuccessesRecorded(r.cache, r.log)
  {
    if a.lookup.NodeFound? && (|s.cache| > 0 || a.listing.Some?) {
      var cache := if |s.cache| == 0 then NotProcessed(a.listing.value) else s.cache;
      assert SuccessesRecorded(cache, s.log);
      TaggedKeepsLog(s, cache, node, NodeAddresses(a.lookup.addresses), a);
    }
  }

  /** What a Reconcile that tags adds to the log. */
  lemma RecordsGood(s: State, cache: Cache, node: string, addresses: seq<string>, a: Answers)
    returns (added: seq<Tagging>)
    requires Agrees(a, s.stored)
    ensures var r := Tagged(s, cache, node, addresses, a);
            && r.log == s.log + added
            && if node in r.cache && r.cache[node].success then
                 && |added| == 1 && GoodTagging(added[0]) && added[0].node == node && added[0].addresses == addresses
                 && added[0].port.id in r.stored && added[0].after == r.stored[added[0].port.id]
               else added == []
  {
    added := Tagged(s, cache, node, addresses, a).log[|s.log|..];
    if added != [] {
      StoresExactly(s, cache, node, addresses, a);
    }
  }

  lemma LogGrows(log: seq<Tagging>, t: Tagging, cache: Cache, reason: string)
    requires AllGood(log) && SuccessesRecorded(cache, log) && GoodTagging(t)
    ensures AllGood(log + [t])
    ensures SuccessesRecorded(cache[t.node := NodeStatus(t.addresses, true, reason)], log + [t])
  {
    var after := cache[t.node := NodeStatus(t.addresses, true, reason)];
    forall n | n in after && after[n].success ensures Recorded(log + [t], n, after[n].addresses) {
      if n == t.node {
        assert (log + [t])[|log|].node == n;
      } else {
        var i :| 0 <= i < |log| && log[i].node == n && log[i].addresses == cache[n].addresses;
        assert (log + [t])[i] == log[i];
      }
    }
  }

  lemma TaggedKeepsLog(s: State, cache: Cache, node: string, addresses: seq<string>, a: Answers)
    requires AllGood(s.log) && SuccessesRecorded(cache, s.log) && Agrees(a, s.stored)
    ensures var r := Tagged(s, cache, node, addresses, a); AllGood(r.log) && SuccessesRecorded(r.cache, r.log)
  {
    TaggedCases(s, cache, node, addresses, a);
    var added := RecordsGood(s, cache, node, addresses, a);
    if added != [] {
      LogGrows(s.log, added[0], cache, "");
      assert added == [added[0]];
    } else {
      assert s.log + added == s.log;
    }
  }

  /** The controller starts with an empty cache and no failure, whatever NSX stores. */
  ghost predicate Initial(w: World) {
    w.state == State(map[], false, w.state.stored, []) && !w.stale
  }

  /** Over every run: unless tagging was switched off and nothing published since, the ClusterNode failure is set
      exactly when some cached node is unsuccessful; and as long as NSX answers what it stores, every cached success
      was recorded when NSX stored both tags and all earlier ones for its selected port. */
  lemma {:induction false} RunKeepsInv(w: World, events: seq<Event>)
    requires Initial(w)
    ensures FailureShown(Run(w, events))
    ensures var s := Run(w, events).state;
            Honest(w, events) ==> AllGood(s.log) && SuccessesRecorded(s.cache, s.log)
  {
    if events != [] {
      var front, last := events[..|events| - 1], events[|events| - 1];
      RunKeepsInv(w, front);
      NextShowsFailure(Run(w, front), last);
      if Honest(w, events) && last.Reconcile? {
        ReconcileKeepsLog(Run(w, front).state, last.node, last.answers);
      }
    }
  }

  /** Every recorded tagging is still there, and no port has lost a tag. */
  ghost predicate StillTagged(before: Stored, s: State) {
    && (forall i :: 0 <= i < |s.log| ==>
          s.log[i].port.id in s.stored && s.log[i].after <= s.stored[s.log[i].port.id])
    && (forall id :: id in before ==> id in s.stored && before[id] <= s.stored[id])
  }

  lemma TaggedKeepsTags(before: Stored, s: State, cache: Cache, node: string, addresses: seq<string>, a: Answers)
    requires StillTagged(before, s) && Agrees(a, s.stored)
    ensures StillTagged(before, Tagged(s, cache, node, addresses, a))
  {
    var added := RecordsGood(s, cache, node, addresses, a);
    StoreGrows(s, cache, node, addresses, a);
    StillTaggedGrows(before, s, Tagged(s, cache, node, addresses, a), added);
  }

  lemma StoreGrows(s: State, cache: Cache, node: string, addresses: seq<string>, a: Answers)
    requires Agrees(a, s.stored)
    ensures var r := Tagged(s, cache, node, addresses, a);
            forall id :: id in s.stored ==> id in r.stored && s.stored[id] <= r.stored[id]
  {
    if a.ports.Some? && |a.ports.value| > 0 && Selected(a.ports.value, addresses).Some? {
      StoresExactly(s, cache, node, addresses, a);
    }
  }

  lemma StillTaggedGrows(before: Stored, s: State, r: State, added: seq<Tagging>)
    requires StillTagged(before, s) && r.log == s.log + added
    requires forall id :: id in s.stored ==> id in r.stored && s.stored[id] <= r.stored[id]
    requires forall t :: t in added ==> t.port.id in r.stored && t.after <= r.stored[t.port.id]
    ensures StillTagged(before, r)
  {
    forall i | 0 <= i < |r.log| ensures r.log[i].port.id in r.stored && r.log[i].after <= r.stored[r.log[i].port.id] {
      if i < |s.log| {
        assert r.log[i] == s.log[i];
      } else {
        assert r.log[i] in added;
      }
    }
  }

  lemma ReconcileKeepsTags(before: Stored, s: State, node: string, a: Answers)
    requires StillTagged(before, s) && Agrees(a, s.stored)
    ensures StillTagged(before, Reconciled(s, node, a))
  {
    if a.lookup.NodeFound? && (|s.cache| > 0 || a.listing.Some?) {
      TaggedKeepsTags(before, s, if |s.cache| == 0 then NotProcessed(a.listing.value) else s.cache,
                      node, NodeAddresses(a.lookup.addresses), a);
    }
  }

  lemma {:induction false} RunKeepsTags(w: World, events: seq<Event>)
    requires Initial(w) && Honest(w, events) && forall e :: e in events ==> !e.OutsideEdit?
    ensures StillTagged(w.state.stored, Run(w, events).state)
  {
    if events != [] {
      var front, last := events[..|events| - 1], events[|events| - 1];
      RunKeepsTags(w, front);
      if last.Reconcile? {
        ReconcileKeepsTags(w.state.stored, Run(w, front).state, last.node, last.answers);
      }
    }
  }

  /** As long as nobody else changes the ports: at any time every cached success has a port for which NSX stores both
      tags, and no port has lost a tag it had at the start. */
  lemma SuccessesStayTagged(w: World, events: seq<Event>, node: string)
    requires Initial(w) && Honest(w, events) && forall e :: e in events ==> !e.OutsideEdit?
    ensures var s := Run(w, events).state;
            && (node in s.cache && s.cache[node].success ==>
                exists id, cluster :: id in s.stored &&
                  Tag("ncp/node_name", node) in s.stored[id] && Tag("ncp/cluster", cluster) in s.stored[id])
            && forall id :: id in w.state.stored ==> id in s.stored && w.state.stored[id] <= s.stored[id]
  {
    RunKeepsInv(w, events);
    RunKeepsTags(w, events);
    var s := Run(w, events).state;
    if node in s.cache && s.cache[node].success {
      var i :| 0 <= i < |s.log| && s.log[i].node == node && s.log[i].addresses == s.cache[node].addresses;
      var t := s.log[i];
      assert GoodTagging(t) && t.after <= s.stored[t.port.id];
      assert Tag("ncp/node_name", node) in s.stored[t.port.id] && Tag("ncp/cluster", t.cluster) in s.stored[t.port.id];
    }
  }

  /** While tagging is never switched off nothing is ever stale. */
  lemma {:induction false} NeverStale(w: World, events: seq<Event>)
    requires Initial(w) && forall e :: e in events ==> !e.SwitchOff?
    ensures !Run(w, events).stale
  {
    if events != [] {
      NeverStale(w, events[..|events| - 1]);
    }
  }

  /** After switching off and on again, a Reconcile brings the failure back in line exactly when the node is not a
      cached success with the same addresses, or when no cached node is unsuccessful anyway. */
  lemma AfterToggleExactly(s: State, node: string, a: Answers)
    requires |s.cache| > 0
    ensures var w := Next(Next(World(s, true, false), SwitchOff), SwitchOn);
            var after := Next(w, Reconcile(node, a)).state;
            (after.degraded <==> AnyUnsuccessful(after.cache)) <==>
            !(&& a.lookup.NodeFound? && node in s.cache && s.cache[node].success
              && s.cache[node].addresses == NodeAddresses(a.lookup.addresses)) || !AnyUnsuccessful(s.cache)
  {
  }

  const ADDRESSES := [Address(false, "10.0.0.1")]

  /** Nodes "a" and "b" are listed, "a" fails and "b" is tagged; tagging is switched off and on; "b" is reconciled. */
  const TOGGLE_RUN: seq<Event> := [
    Reconcile("a", Answers(Some(["a", "b"]), NodeFound(ADDRESSES), "c", None, false, "no ports")),
    Reconcile("b", Answers(None, NodeFound(ADDRESSES), "c", Some([Port("p", [], [], true, true)]), false, "")),
    SwitchOff,
    SwitchOn,
    Reconcile("b", Answers(None, NodeFound(ADDRESSES), "c", None, false, ""))]

  const TOGGLE_START := World(State(map[], false, map["p" := []], []), true, false)

  lemma RunNext(w: World, events: seq<Event>, i: nat)
    requires i < |events|
    ensures Run(w, events[..i + 1]) == Next(Run(w, events[..i]), events[i])
    ensures Honest(w, events[..i + 1]) <==>
              Honest(w, events[..i]) &&
              (events[i].Reconcile? ==> Agrees(events[i].answers, Run(w, events[..i]).state.stored))
  {
    assert events[..i + 1][..i] == events[..i];
  }

  /** From the start of the controller on, a run after which the failure stays lost although node "a" failed. */
  lemma ToggleLosesFailure()
    ensures var after := Run(TOGGLE_START, TOGGLE_RUN).state;
            !after.degraded && "a" in after.cache && !after.cache["a"].success
    ensures Honest(TOGGLE_START, TOGGLE_RUN)
  {
    var w := TOGGLE_START;
    assert ADDRESSES[..0] == [];
    assert NodeAddresses(ADDRESSES) == ["10.0.0.1"];
    ToggleBegins(w);
    var tagged := Run(w, TOGGLE_RUN[..2]);
    RunNext(w, TOGGLE_RUN, 2);
    RunNext(w, TOGGLE_RUN, 3);
    RunNext(w, TOGGLE_RUN, 4);
    assert TOGGLE_RUN[..5] == TOGGLE_RUN;
    assert Skips(tagged.state.cache, "b", TOGGLE_RUN[4].answers);
  }

  /** The first step: "a" has failed. */
  lemma ToggleFirst(w: World)
    requires w == TOGGLE_START
    requires NodeAddresses(ADDRESSES) == ["10.0.0.1"]
    ensures var failed := Run(w, TOGGLE_RUN[..1]);
            && failed.enabled && failed.state.stored == w.state.stored && Honest(w, TOGGLE_RUN[..1])
            && failed.state.cache.Keys == {"a", "b"}
            && failed.state.cache["a"] == NodeStatus(["10.0.0.1"], false, "no ports")
            && !failed.state.cache["b"].success
  {
    RunNext(w, TOGGLE_RUN, 0);
    assert Run(w, TOGGLE_RUN[..0]) == w && Honest(w, TOGGLE_RUN[..0]);
    FirstFails(w.state, TOGGLE_RUN[0].answers);
  }

  /** The first two steps: "a" has failed and "b" is tagged. */
  lemma ToggleBegins(w: World)
    requires w == TOGGLE_START
    requires NodeAddresses(ADDRESSES) == ["10.0.0.1"]
    ensures var tagged := Run(w, TOGGLE_RUN[..2]);
            && tagged.enabled && Honest(w, TOGGLE_RUN[..2])
            && tagged.state.cache == map["a" := NodeStatus(["10.0.0.1"], false, "no ports"),
                                         "b" := NodeStatus(["10.0.0.1"], true, "")]
  {
    ToggleFirst(w);
    RunNext(w, TOGGLE_RUN, 1);
    SecondSucceeds(Run(w, TOGGLE_RUN[..1]).state, TOGGLE_RUN[1].answers);
  }

  lemma FirstFails(s: State, a: Answers)
    requires s.cache == map[] && a.listing == Some(["a", "b"]) && a.ports.None?
    requires a.lookup.NodeFound? && NodeAddresses(a.lookup.addresses) == ["10.0.0.1"]
    ensures var r := Reconciled(s, "a", a);
            && r.cache.Keys == {"a", "b"} && r.cache["a"] == NodeStatus(["10.0.0.1"], false, a.why)
            && !r.cache["b"].success && r.stored == s.stored
  {
  }

  lemma SecondSucceeds(s: State, a: Answers)
    requires s.cache.Keys == {"a", "b"} && !s.cache["b"].success
    requires a.ports.Some? && |a.ports.value| == 1 && a.ports.value[0].hasSegment && !a.updateFails
    requires a.lookup.NodeFound? && NodeAddresses(a.lookup.addresses) == ["10.0.0.1"]
    ensures Reconciled(s, "b", a).cache == s.cache["b" := NodeStatus(["10.0.0.1"], true, "")]
  {
    assert "b" in s.cache;
  }

  // ---------------------------------------------------------------- implementation

  class Controller {
    const m: Manager
    var cache: Cache
    ghost var stored: Stored
    ghost var log: seq<Tagging>

    constructor (m: Manager, ghost stored: Stored)
      ensures this.m == m && cache == map[] && this.stored == stored && log == []
    {
      this.m, cache, this.stored, log := m, map[], stored, [];
    }

    ghost function Current(): State
      reads this, m, m.failing
      requires m.Valid()
    {
      State(cache, m.failing[CLUSTER_NODE].Some?, stored, log)
    }

    method CollectAddresses(addrs: seq<Address>) returns (addresses: seq<string>)
      ensures addresses == NodeAddresses(addrs)
    {
      addresses := [];
      for i := 0 to |addrs|
        invariant addresses == NodeAddresses(addrs[..i])
      {
        assert addrs[..i + 1][..i] == addrs[..i];
        if !addrs[i].hostName && addrs[i].ip !in addresses {
          addresses := addresses + [addrs[i].ip];
        }
      }
      assert addrs[..|addrs|] == addrs;
    }

    /** Replaces the cache and publishes it. */
    method Store(cache: Cache, attempts: seq<Attempt>)
      requires m.Valid() && |attempts| == RETRIES
      modifies this`cache, m`history, m.failing
      ensures m.Valid() && Current() == Publish(old(Current()), cache)
    {
      this.cache := cache;
      var published;
      ghost var order;
      published, order := SetFromNodes(m, cache, attempts);
    }

    /** Sends the tags of a port to NSX. */
    method UpdatePort(id: string, tags: seq<Tag>, fails: bool) returns (ok: bool)
      modifies this`stored
      ensures ok == !fails && stored == AfterUpdate(old(stored), id, tags, fails)
    {
      stored := AfterUpdate(stored, id, tags, fails);
      ok := !fails;
    }

    /** From the port candidates to the recorded outcome. */
    method TagPort(node: string, addresses: seq<string>, a: Answers, attempts: seq<Attempt>)
      requires m.Valid() && |attempts| == RETRIES
      modifies this, m`history, m.failing
      ensures m.Valid() && Current() == Tagged(old(Current()), old(cache), node, addresses, a)
    {
      var failed := NodeStatus(addresses, false, a.why);
      if a.ports.None? || |a.ports.value| == 0 {
        Store(cache[node := failed], attempts);
        return;
      }
      var ports := a.ports.value;
      if |ports| > 1 {
        var filtered := FilterPortsByNodeAddresses(ports, addresses);
        if filtered.None? {
          Store(cache[node := failed], attempts);
          return;
        }
        ports := filtered.value;
      }
      var port := ports[0];
      var update, tags := CompleteTags(port.tags, node, a.cluster);
      if update {
        var ok := port.hasSegment;
        if ok {
          ok := UpdatePort(port.id, tags, a.updateFails);
        }
        if !ok {
          Store(cache[node := failed], attempts);
          return;
        }
      }
      Store(cache[node := NodeStatus(addresses, true, "")], attempts);
      log := log + [Tagging(node, a.cluster, a.ports.value, addresses, port, StoredTags(stored, port.id))];
    }

    /** Reconcile once the cache is filled. */
    method ProcessNode(node: string, a: Answers, attempts: seq<Attempt>)
      requires m.Valid() && |attempts| == RETRIES
      modifies this, m`history, m.failing
      ensures m.Valid() && Current() == Processed(old(Current()), old(cache), node, a)
    {
      match a.lookup {
        case NodeMissing => Store(cache - {node}, attempts);
        case NodeUnreadable => Store(cache[node := NodeStatus([], false, a.why)], attempts);
        case NodeFound(addrs) =>
          var addresses := CollectAddresses(addrs);
          if node in cache && cache[node].addresses == addresses && cache[node].success {
            return;
          }
          TagPort(node, addresses, a, attempts);
      }
    }

    method Reconcile(node: string, a: Answers, attempts: seq<Attempt>)
      requires m.Valid() && |attempts| == RETRIES
      modifies this, m`history, m.failing
      ensures m.Valid() && Current() == Reconciled(old(Current()), node, a)
    {
      if |cache| == 0 {
        if a.listing.None? {
          return;
        }
        cache := NotProcessed(a.listing.value);
      }
      ProcessNode(node, a, attempts);
    }
  }
}
