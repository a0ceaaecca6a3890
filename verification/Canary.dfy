/** Strictly sorted lists of strings: what `sort.Strings` makes of a deduplicated list. */
module SortedStrings {
  import opened Common

  predicate Less(a: string, b: string) {
    b != "" && (a == "" || a[0] < b[0] || (a[0] == b[0] && Less(a[1..], b[1..])))
  }

  lemma {:induction false} Trichotomy(a: string, b: string)
    ensures Less(a, b) || a == b || Less(b, a)
    ensures !(Less(a, b) && Less(b, a))
  {
    if a != "" && b != "" && a[0] == b[0] {
      Trichotomy(a[1..], b[1..]);
      assert a == [a[0]] + a[1..] && b == [b[0]] + b[1..];
    }
  }

  lemma {:induction false} Transitive(a: string, b: string, c: string)
    requires Less(a, b) && Less(b, c)
    ensures Less(a, c)
  {
    if a != "" && a[0] == b[0] == c[0] {
      Transitive(a[1..], b[1..], c[1..]);
    }
  }

  /** `a` goes on as `b` up to `i`, and then ends or has the smaller character. */
  ghost predicate SmallerAt(a: string, b: string, i: nat) {
    && i <= |a| && i < |b| && (forall j :: 0 <= j < i ==> a[j] == b[j])
    && (i < |a| ==> a[i] < b[i])
  }

  /** The order is the lexicographic one. */
  lemma {:induction false} LessExactly(a: string, b: string)
    ensures Less(a, b) <==> exists i :: SmallerAt(a, b, i)
  {
    if b == "" {
    } else if a == "" || a[0] != b[0] {
      assert Less(a, b) ==> SmallerAt(a, b, 0);
      forall i | SmallerAt(a, b, i) ensures i == 0 {
      }
    } else {
      LessExactly(a[1..], b[1..]);
      if i: nat :| SmallerAt(a[1..], b[1..], i) {
        assert forall j :: 0 < j <= i ==> a[j] == a[1..][j - 1] && b[j] == b[1..][j - 1];
        assert SmallerAt(a, b, i + 1);
      }
      if i: nat :| SmallerAt(a, b, i) {
        assert SmallerAt(a[1..], b[1..], i - 1);
      }
    }
  }

  ghost predicate StrictlySorted(s: seq<string>) {
    forall i, j :: 0 <= i < j < |s| ==> Less(s[i], s[j])
  }

  ghost predicate SortedListOf(r: seq<string>, s: set<string>) {
    StrictlySorted(r) && forall x :: x in r <==> x in s
  }

  /** There is only one strictly sorted list of a set. */
  lemma {:induction false} SortedUnique(a: seq<string>, b: seq<string>, s: set<string>)
    requires SortedListOf(a, s) && SortedListOf(b, s)
    ensures a == b
  {
    assert |a| == 0 || a[0] in s;
    assert |b| == 0 || b[0] in s;
    if a != [] {
      HeadIsLeast(a, b, s);
      HeadIsLeast(b, a, s);
      Trichotomy(a[0], b[0]);
      TailSorted(a, s);
      TailSorted(b, s);
      SortedUnique(a[1..], b[1..], s - {a[0]});
      assert a == [a[0]] + a[1..] && b == [b[0]] + b[1..];
    }
  }

  lemma HeadIsLeast(a: seq<string>, b: seq<string>, s: set<string>)
    requires SortedListOf(a, s) && SortedListOf(b, s) && a != [] && b != []
    ensures a[0] == b[0] || Less(a[0], b[0])
  {
    assert b[0] in a;
    var i :| 0 <= i < |a| && a[i] == b[0];
  }

  lemma TailSorted(a: seq<string>, s: set<string>)
    requires SortedListOf(a, s) && a != []
    ensures SortedListOf(a[1..], s - {a[0]})
  {
    Trichotomy(a[0], a[0]);
    forall x ensures x in a[1..] <==> x in s - {a[0]} {
      if x in a[1..] {
        var i :| 0 <= i < |a[1..]| && a[1..][i] == x;
        assert Less(a[0], a[i + 1]);
      }
      if x in s - {a[0]} {
        var i :| 0 <= i < |a| && a[i] == x;
        assert a[1..][i - 1] == x;
      }
    }
  }

  function Insert(x: string, r: seq<string>): seq<string> {
    if r == [] then [x]
    else if Less(x, r[0]) then [x] + r
    else [r[0]] + Insert(x, r[1..])
  }

  lemma {:induction false} Inserted(x: string, r: seq<string>, s: set<string>)
    requires SortedListOf(r, s) && x !in s
    ensures SortedListOf(Insert(x, r), s + {x})
  {
    if r != [] {
      TailSorted(r, s);
      if Less(x, r[0]) {
        forall j | 0 <= j < |r| ensures Less(x, r[j]) {
          if j > 0 { Transitive(x, r[0], r[j]); }
        }
      } else {
        Trichotomy(x, r[0]);
        assert r[0] in s;
        var rest := Insert(x, r[1..]);
        Inserted(x, r[1..], s - {r[0]});
        forall j | 0 <= j < |rest| ensures Less(r[0], rest[j]) {
          assert rest[j] in s - {r[0]} + {x};
          if rest[j] != x {
            var i :| 0 <= i < |r| && r[i] == rest[j];
          }
        }
        var all := [r[0]] + rest;
        assert forall y :: y in all <==> y == r[0] || y in rest;
      }
    }
  }

  /** The strictly sorted list of a set. */
  ghost function SortedList(s: set<string>): seq<string> {
    if s == {} then [] else
      var x :| x in s;
      Insert(x, SortedList(s - {x}))
  }

  lemma {:induction false} SortedListIs(s: set<string>)
    ensures SortedListOf(SortedList(s), s)
  {
    if s != {} {
      var x :| x in s && SortedList(s) == Insert(x, SortedList(s - {x}));
      SortedListIs(s - {x});
      Inserted(x, SortedList(s - {x}), s - {x});
      assert s - {x} + {x} == s;
    }
  }

  /** Stands for `sort.Strings`. */
  method Sort(s: seq<string>) returns (r: seq<string>)
    requires NoDuplicates(s)
    ensures SortedListOf(r, Elements(s))
  {
    r := [];
    for i := 0 to |s|
      invariant SortedListOf(r, Elements(s[..i]))
    {
      assert s[i] !in s[..i];
      assert Elements(s[..i + 1]) == Elements(s[..i]) + {s[i]};
      Inserted(s[i], r, Elements(s[..i]));
      r := Insert(s[i], r);
    }
    assert s[..|s|] == s;
  }
}

/** The canary companion-policy controller. */
module Canary {
  import opened Common
  import opened SortedStrings

  // ---------------------------------------------------------------- cluster objects

  datatype AddressKind = InternalIP | ExternalIP | OtherAddress
  datatype Address = Address(kind: AddressKind, ip: string)
  type Node = seq<Address>

  /** The labels of each ingress peer's namespaceSelector, rule by rule; `None` when a peer has no selector. */
  datatype Upstream = Upstream(uid: string, ingress: seq<seq<Option<map<string, string>>>>)

  /** A service port; `target` is the numeric TargetPort, 0 when it is unset or named. */
  datatype ServicePort = ServicePort(protocol: string, port: int, target: int)
  type Service = seq<ServicePort>

  /** The companion policy: its owner, the admitted /32 sources and the admitted TCP ports. */
  datatype Companion = Companion(owner: string, peers: seq<string>, ports: seq<int>)

  predicate Relevant(a: Address) { a.kind.InternalIP? || a.kind.ExternalIP? }

  ghost function IPsOf(node: Node): set<string> {
    set a | a in node && Relevant(a) :: a.ip
  }

  // ---------------------------------------------------------------- node addresses

  /** `nodeIPs`: the relevant addresses, each once. */
  method NodeIPs(node: Node) returns (ips: seq<string>)
    ensures NoDuplicates(ips) && Elements(ips) == IPsOf(node)
    ensures forall ip :: ip in ips <==> Address(InternalIP, ip) in node || Address(ExternalIP, ip) in node
  {
    var seen: set<string> := {};
    ips := [];
    for i := 0 to |node|
      invariant seen == Elements(ips) == IPsOf(node[..i])
      invariant NoDuplicates(ips)
    {
      var addr := node[i];
      assert node[..i + 1] == node[..i] + [addr];
      if Relevant(addr) && addr.ip !in seen {
        seen := seen + {addr.ip};
        ips := ips + [addr.ip];
      }
      ExtendIPs(node[..i], addr);
    }
    assert node[..|node|] == node;
    forall ip ensures ip in ips <==> Address(InternalIP, ip) in node || Address(ExternalIP, ip) in node {
      IPsAre(node, ip);
      assert ip in ips <==> ip in Elements(ips);
    }
  }

  lemma IPsAre(node: Node, ip: string)
    ensures ip in IPsOf(node) <==> Address(InternalIP, ip) in node || Address(ExternalIP, ip) in node
  {
    if ip in IPsOf(node) {
      var a :| a in node && Relevant(a) && a.ip == ip;
      assert a == Address(InternalIP, ip) || a == Address(ExternalIP, ip);
    }
  }

  lemma ExtendIPs(node: Node, a: Address)
    ensures IPsOf(node + [a]) == IPsOf(node) + if Relevant(a) then {a.ip} else {}
  {
    forall ip ensures ip in IPsOf(node + [a]) <==> ip in IPsOf(node) + if Relevant(a) then {a.ip} else {} {
      if ip in IPsOf(node) {
        var b :| b in node && Relevant(b) && b.ip == ip;
        assert b in node + [a];
      }
      if Relevant(a) {
        assert a in node + [a];
      }
    }
  }

  /** `sameNodeIPs` */
  method SameNodeIPs(a: seq<string>, b: seq<string>) returns (same: bool)
    ensures same <==> |a| == |b| && forall ip :: ip in b ==> ip in a
  {
    if |a| != |b| {
      return false;
    }
    var aSet: set<string> := {};
    for i := 0 to |a|
      invariant aSet == Elements(a[..i])
    {
      aSet := aSet + {a[i]};
    }
    assert a[..|a|] == a;
    for i := 0 to |b|
      invariant forall ip :: ip in b[..i] ==> ip in a
    {
      if b[i] !in aSet {
        return false;
      }
    }
    same := true;
  }

  /** On deduplicated lists the one-sided test is set equality, by counting. */
  lemma SameCountSameSet(a: seq<string>, b: seq<string>)
    requires NoDuplicates(a) && NoDuplicates(b)
    ensures |a| == |b| && (forall ip :: ip in b ==> ip in a) <==> Elements(a) == Elements(b)
  {
    DistinctCardinality(a);
    DistinctCardinality(b);
    if |a| == |b| && forall ip :: ip in b ==> ip in a {
      assert Elements(b) <= Elements(a);
      SubsetOfSameSize(Elements(b), Elements(a));
    }
    if Elements(a) == Elements(b) {
      forall ip | ip in b ensures ip in a { assert ip in Elements(b); }
    }
  }

  lemma SubsetOfSameSize<T>(small: set<T>, big: set<T>)
    requires small <= big && |small| == |big|
    ensures small == big
  {
    assert |big - small| == |big| - |small|;
  }

  /** `nodeAddressChangedPredicate` for updates: lets exactly the address changes through. */
  method NodeUpdatePasses(before: Node, after: Node) returns (pass: bool)
    ensures pass <==> IPsOf(before) != IPsOf(after)
  {
    var a := NodeIPs(before);
    var b := NodeIPs(after);
    var same := SameNodeIPs(a, b);
    SameCountSameSet(a, b);
    pass := !same;
  }

  ghost function AllIPs(nodes: seq<Node>): set<string> {
    set n, ip | n in nodes && ip in IPsOf(n) :: ip
  }

  /** `listNodeIPs`: the strictly sorted union, whatever the order of nodes and addresses. */
  method ListNodeIPs(nodes: seq<Node>) returns (ips: seq<string>)
    ensures SortedListOf(ips, AllIPs(nodes))
    ensures ips == SortedList(AllIPs(nodes))
    ensures forall ip :: ip in ips <==>
              exists n :: n in nodes && (Address(InternalIP, ip) in n || Address(ExternalIP, ip) in n)
  {
    var seen: set<string> := {};
    var list: seq<string> := [];
    for i := 0 to |nodes|
      invariant seen == Elements(list) == AllIPs(nodes[..i])
      invariant NoDuplicates(list)
    {
      var own := NodeIPs(nodes[i]);
      ghost var before := seen;
      for j := 0 to |own|
        invariant seen == Elements(list) == before + Elements(own[..j])
        invariant NoDuplicates(list)
      {
        if own[j] !in seen {
          seen := seen + {own[j]};
          list := list + [own[j]];
        }
      }
      assert own[..|own|] == own;
      assert nodes[..i + 1] == nodes[..i] + [nodes[i]];
      ExtendAllIPs(nodes[..i], nodes[i]);
    }
    assert nodes[..|nodes|] == nodes;
    ips := Sort(list);
    SortedListIs(AllIPs(nodes));
    SortedUnique(ips, SortedList(AllIPs(nodes)), AllIPs(nodes));
    forall ip ensures ip in AllIPs(nodes) <==>
                      exists n :: n in nodes && (Address(InternalIP, ip) in n || Address(ExternalIP, ip) in n) {
      forall n { IPsAre(n, ip); }
    }
  }

  lemma ExtendAllIPs(nodes: seq<Node>, n: Node)
    ensures AllIPs(nodes + [n]) == AllIPs(nodes) + IPsOf(n)
  {
    forall ip ensures ip in AllIPs(nodes + [n]) <==> ip in AllIPs(nodes) + IPsOf(n) {
      if ip in AllIPs(nodes) {
        var m :| m in nodes && ip in IPsOf(m);
        assert m in nodes + [n];
      }
      if ip in IPsOf(n) {
        assert n in nodes + [n];
      }
    }
  }

  // ---------------------------------------------------------------- ports, selector, policy

  function PortsOf(svc: Service): seq<int> {
    if svc == [] then []
    else
      var rest := PortsOf(svc[..|svc| - 1]);
      var p := svc[|svc| - 1];
      if p.protocol != "" && p.protocol != "TCP" then rest
      else rest + [if p.target != 0 then p.target else p.port]
  }

  /** Each TCP port of the service gives one port in its place, the target port if there is one. */
  lemma {:induction false} PortsAre(before: Service, p: ServicePort, after: Service)
    ensures PortsOf(before + [p] + after) ==
            PortsOf(before) +
            (if p.protocol == "TCP" || p.protocol == "" then [if p.target == 0 then p.port else p.target] else []) +
            PortsOf(after)
  {
    var svc := before + [p] + after;
    if after == [] {
      assert svc[..|svc| - 1] == before && svc[|svc| - 1] == p;
    } else {
      var last := after[|after| - 1];
      assert svc[..|svc| - 1] == before + [p] + after[..|after| - 1] && svc[|svc| - 1] == last;
      PortsAre(before, p, after[..|after| - 1]);
    }
  }

  function CanaryPorts(svc: Option<Service>): seq<int> {
    if svc.None? then [] else PortsOf(svc.value)
  }

  /** `canaryServicePorts` */
  method CanaryServicePorts(svc: Option<Service>) returns (ports: seq<int>)
    ensures ports == CanaryPorts(svc)
  {
    ports := [];
    if svc.None? {
      return;
    }
    for i := 0 to |svc.value|
      invariant ports == PortsOf(svc.value[..i])
    {
      var p := svc.value[i];
      assert svc.value[..i + 1][..i] == svc.value[..i];
      if p.protocol != "" && p.protocol != "TCP" {
        continue;
      }
      var port := p.port;
      if p.target != 0 {
        port := p.target;
      }
      ports := ports + [port];
    }
    assert svc.value[..|svc.value|] == svc.value;
  }

  const HOST_NETWORK_LABEL := "policy-group.network.openshift.io/host-network"

  predicate SelectsHostNetwork(peer: Option<map<string, string>>) {
    peer.Some? && HOST_NETWORK_LABEL in peer.value && peer.value[HOST_NETWORK_LABEL] == ""
  }

  predicate HasHostNetworkSelector(up: Upstream) {
    exists i, j :: 0 <= i < |up.ingress| && 0 <= j < |up.ingress[i]| && SelectsHostNetwork(up.ingress[i][j])
  }

  /** `hasHostNetworkNamespaceSelector` */
  method FindHostNetworkSelector(up: Upstream) returns (found: bool)
    ensures found == HasHostNetworkSelector(up)
    ensures found <==>
              exists i, j :: 0 <= i < |up.ingress| && 0 <= j < |up.ingress[i]| && up.ingress[i][j].Some? &&
                "policy-group.network.openshift.io/host-network" in up.ingress[i][j].value &&
                up.ingress[i][j].value["policy-group.network.openshift.io/host-network"] == ""
  {
    for i := 0 to |up.ingress|
      invariant forall a, b :: 0 <= a < i && 0 <= b < |up.ingress[a]| ==> !SelectsHostNetwork(up.ingress[a][b])
    {
      for j := 0 to |up.ingress[i]|
        invariant forall b :: 0 <= b < j ==> !SelectsHostNetwork(up.ingress[i][b])
      {
        if SelectsHostNetwork(up.ingress[i][j]) {
          return true;
        }
      }
    }
    found := false;
  }

  function OnlyV4(isV4: string -> bool, ips: seq<string>): seq<string> {
    if ips == [] then []
    else
      var front := OnlyV4(isV4, ips[..|ips| - 1]);
      if isV4(ips[|ips| - 1]) then front + [ips[|ips| - 1]] else front
  }

  function Build(isV4: string -> bool, up: Upstream, ips: seq<string>, ports: seq<int>): Companion {
    Companion(up.uid, OnlyV4(isV4, ips), ports)
  }

  /** `buildWorkaroundPolicy`; `isV4` answers whether the parsed address has an IPv4 form. */
  method BuildWorkaroundPolicy(isV4: string -> bool, up: Upstream, ips: seq<string>, ports: seq<int>)
    returns (policy: Companion)
    ensures policy == Build(isV4, up, ips, ports)
    ensures policy.owner == up.uid && policy.ports == ports
    ensures forall ip :: ip in policy.peers <==> ip in ips && isV4(ip)
  {
    var peers: seq<string> := [];
    for i := 0 to |ips|
      invariant peers == OnlyV4(isV4, ips[..i])
    {
      assert ips[..i + 1][..i] == ips[..i];
      if isV4(ips[i]) {
        peers := peers + [ips[i]];
      }
    }
    assert ips[..|ips|] == ips;
    policy := Companion(up.uid, peers, ports);
    forall ip { OnlyV4Exactly(isV4, ips, ip); }
  }

  lemma {:induction false} OnlyV4Exactly(isV4: string -> bool, ips: seq<string>, ip: string)
    ensures ip in OnlyV4(isV4, ips) <==> ip in ips && isV4(ip)
  {
    if ips != [] {
      OnlyV4Exactly(isV4, ips[..|ips| - 1], ip);
      assert ip in ips <==> ip in ips[..|ips| - 1] || ip == ips[|ips| - 1];
    }
  }

  /** The IPv4 addresses keep their places. */
  lemma {:induction false} OnlyV4InOrder(isV4: string -> bool, before: seq<string>, after: seq<string>)
    ensures OnlyV4(isV4, before + after) == OnlyV4(isV4, before) + OnlyV4(isV4, after)
  {
    var ips := before + after;
    if after == [] {
      assert ips == before;
    } else {
      assert ips[..|ips| - 1] == before + after[..|after| - 1] && ips[|ips| - 1] == after[|after| - 1];
      OnlyV4InOrder(isV4, before, after[..|after| - 1]);
    }
  }

  lemma NoPeers(isV4: string -> bool, ips: seq<string>)
    requires forall ip :: ip in ips ==> !isV4(ip)
    ensures OnlyV4(isV4, ips) == []
  {
    var peers := OnlyV4(isV4, ips);
    if peers != [] {
      OnlyV4Exactly(isV4, ips, peers[0]);
    }
  }

  // ---------------------------------------------------------------- what the policy admits

  /** A parsed address as a number of 32 or 128 bits. */
  datatype Ip = V4(n: nat) | V6(n: nat)

  type Parser = string -> Option<Ip>

  /** An IPv4 address written as an IPv6 one, such as ::ffff:10.0.0.1 (section 2.5.5.2 of RFC 4291). */
  predicate Mapped(ip: Ip) { ip.V6? && ip.n / 0x1_0000_0000 == 0xffff }

  /** `To4` answers for IPv4-mapped addresses too. */
  function HasV4Form(parse: Parser): string -> bool {
    s => parse(s).Some? && (parse(s).value.V4? || Mapped(parse(s).value))
  }

  /** The prefix of 32 bits behind an address: one IPv4 address, or all IPv6 addresses with the same first 32 bits. */
  predicate InPrefix32(peer: Ip, source: Ip) {
    match peer
    case V4(_) => source == peer
    case V6(n) => source.V6? && source.n / 0x1_0000_0000_0000_0000_0000_0000 == n / 0x1_0000_0000_0000_0000_0000_0000
  }

  predicate PeerAdmits(parse: Parser, peer: string, source: Ip) {
    parse(peer).Some? && InPrefix32(parse(peer).value, source)
  }

  /** A policy rule without sources admits every source. */
  ghost predicate Admits(parse: Parser, policy: Companion, source: Ip) {
    policy.peers == [] || exists peer :: peer in policy.peers && PeerAdmits(parse, peer, source)
  }

  ghost predicate NodeV4(parse: Parser, nodes: seq<Node>, source: Ip) {
    source.V4? && exists ip :: ip in AllIPs(nodes) && parse(ip) == Some(source)
  }

  /** The companion admits exactly the IPv4 node addresses if and only if there is one and none is written as an
      IPv6 address.  Without any, the empty source list opens the ports to everybody; an IPv4-mapped one opens them to
      the whole IPv6 prefix of 32 bits. */
  lemma AdmitsExactly(parse: Parser, up: Upstream, nodes: seq<Node>, ports: seq<int>)
    ensures var policy := Build(HasV4Form(parse), up, SortedList(AllIPs(nodes)), ports);
            (forall source :: Admits(parse, policy, source) <==> NodeV4(parse, nodes, source)) <==>
            && (exists source :: NodeV4(parse, nodes, source))
            && (forall ip :: ip in AllIPs(nodes) && parse(ip).Some? ==> !Mapped(parse(ip).value))
  {
    var ips := SortedList(AllIPs(nodes));
    var policy := Build(HasV4Form(parse), up, ips, ports);
    SortedListIs(AllIPs(nodes));
    forall ip ensures ip in policy.peers <==> ip in AllIPs(nodes) && HasV4Form(parse)(ip) {
      OnlyV4Exactly(HasV4Form(parse), ips, ip);
    }
    if ip :| ip in AllIPs(nodes) && parse(ip).Some? && Mapped(parse(ip).value) {
      MappedOpens(parse, policy, ip);
      assert Admits(parse, policy, V6(0)) && !NodeV4(parse, nodes, V6(0));
    } else if source :| NodeV4(parse, nodes, source) {
      var ip :| ip in AllIPs(nodes) && parse(ip) == Some(source);
      assert ip in policy.peers;
      forall source { PlainPeers(parse, policy, nodes, source); }
    } else {
      assert policy.peers == [] by {
        if policy.peers != [] {
          assert policy.peers[0] in policy.peers;
          assert NodeV4(parse, nodes, parse(policy.peers[0]).value);
        }
      }
      assert Admits(parse, policy, V6(0)) && !NodeV4(parse, nodes, V6(0));
    }
  }

  lemma MappedOpens(parse: Parser, policy: Companion, ip: string)
    requires ip in policy.peers && parse(ip).Some? && Mapped(parse(ip).value)
    ensures Admits(parse, policy, V6(0))
  {
    assert parse(ip).value.n / 0x1_0000_0000_0000_0000_0000_0000 == 0;
    assert PeerAdmits(parse, ip, V6(0));
  }

  lemma PlainPeers(parse: Parser, policy: Companion, nodes: seq<Node>, source: Ip)
    requires policy.peers != []
    requires forall ip :: ip in policy.peers <==> ip in AllIPs(nodes) && HasV4Form(parse)(ip)
    requires forall ip :: ip in AllIPs(nodes) && parse(ip).Some? ==> !Mapped(parse(ip).value)
    ensures Admits(parse, policy, source) <==> NodeV4(parse, nodes, source)
  {
    if peer :| peer in policy.peers && PeerAdmits(parse, peer, source) {
      assert peer in AllIPs(nodes) && parse(peer) == Some(source);
    }
    if NodeV4(parse, nodes, source) {
      var ip :| ip in AllIPs(nodes) && parse(ip) == Some(source);
      assert ip in policy.peers && PeerAdmits(parse, ip, source);
    }
  }
}
