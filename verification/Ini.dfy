/** Values shared by every component. */
module Common {
  datatype Option<+T> = None | Some(value: T)

  /** The two adaptors of the operator. */
  datatype Platform = Kubernetes | OpenShift

  ghost predicate NoDuplicates<T>(s: seq<T>) {
    forall i, j :: 0 <= i < j < |s| ==> s[i] != s[j]
  }

  ghost function Elements<T>(s: seq<T>): set<T> { set x | x in s }

  lemma ConcatDistinct<T>(a: seq<T>, b: seq<T>)
    requires NoDuplicates(a) && NoDuplicates(b)
    requires forall x :: x in b ==> x !in a
    ensures NoDuplicates(a + b)
  {
    forall i, j | 0 <= i < j < |a + b| ensures (a + b)[i] != (a + b)[j] {
      if i < |a| <= j {
        assert b[j - |a|] in b;
      }
    }
  }

  /** A duplicate-free sequence has as many elements as its set. */
  lemma {:induction false} DistinctCardinality<T>(s: seq<T>)
    requires NoDuplicates(s)
    ensures |Elements(s)| == |s|
  {
    if s != [] {
      var front, last := s[..|s| - 1], s[|s| - 1];
      DistinctCardinality(front);
      assert last !in front;
      assert Elements(s) == Elements(front) + {last};
    }
  }
}

/** The section and option tables of the operator.  Names the operator mentions are
    constructors; every other name is `OtherSection` or `OtherOption`. */
module Names {
  datatype Section =
    | DEFAULT | Ha | K8s | Coe | NsxV3 | Vc | NsxNodeAgent | NsxKubeProxy | Cf
    | OtherSection(name: string)

  datatype Key =
    // forced, defaulted, validated or immutable options
    | Adaptor | PolicyNsxapi | SingleTierTopology | EnableSnat | Enable | Mtu
    | WaitingBeforeCniResponse | EnableOvsMcastSnooping | ContainerIpBlocks
    | ClusterName | NsxApiManagers | ExternalIpPools | Tier0Gateway | TopTierRouter
    | L4LbAutoScaling | NsxApiCertFile | NsxApiPrivateKeyFile | CaFile
    | LbDefaultCertPath | LbPrivKeyPath
    // options whose change restarts a workload
    | LogDir | LogFile | LogRotationFileMaxMb | LogRotationBackupCount
    | EnableIpv6 | UseNsxOvsKernelModule | OvsUplinkPort
    | ApiserverHostIp | ApiserverHostPort | ClientTokenFile | EnableHostportSnat
    | ConnectRetryTimeout
    // unsupported options
    | TopFirewallSectionMarker | BottomFirewallSectionMarker
    | DlbL4Persistence | SingleTierSrTopology | EnforcementPoint | SearchNodeTagOn
    | VifAppIdType | ConfigureT0Redistribution | MultiT0
    | EnableVnetCrd | EnableLbMonitorCrd | EnableNsxnetworkconfigCrd | EnableRoutesetCrd
    | EnableIpPoolCrd | EnableVmCrd | LbStatisticMonitorInterval
    | EnableLbVsStatisticsMonitor | NetworkInfoResyncPeriod | IpUsageAlarmThreshold
    | NodeType | VcEndpoint | SsoDomain | HttpsPort
    | OtherOption(name: string)

  const NCP_SECTIONS: seq<Section> := [DEFAULT, Ha, K8s, Coe, NsxV3, Vc]
  const OPERATOR_SECTIONS: seq<Section> :=
    [DEFAULT, Ha, K8s, Coe, NsxV3, Vc, NsxNodeAgent, NsxKubeProxy]
  const AGENT_SECTIONS: seq<Section> := [DEFAULT, K8s, Coe, NsxNodeAgent, NsxKubeProxy]
  const AGENT_RESTART_SECTIONS: seq<Section> := [DEFAULT, NsxNodeAgent, NsxKubeProxy]

  const BOOTSTRAP_RESTART_OPTION_KEYS: map<Section, seq<Key>> := map[
    DEFAULT := [LogDir, LogFile, LogRotationFileMaxMb, LogRotationBackupCount],
    NsxNodeAgent := [EnableIpv6, UseNsxOvsKernelModule, OvsUplinkPort, Mtu]
  ]

  const AGENT_RESTART_OPTION_KEYS: map<Section, seq<Key>> := map[
    K8s := [ApiserverHostIp, ApiserverHostPort, ClientTokenFile, CaFile, EnableHostportSnat],
    Coe := [ConnectRetryTimeout]
  ]

  const MP_OPTIONS: map<Section, seq<Key>> := map[
    NsxV3 := [TopFirewallSectionMarker, BottomFirewallSectionMarker]
  ]

  const WCP_OPTIONS: map<Section, seq<Key>> := map[
    NsxV3 := [DlbL4Persistence, SingleTierSrTopology, EnforcementPoint, SearchNodeTagOn,
              VifAppIdType, ConfigureT0Redistribution, MultiT0],
    K8s := [EnableVnetCrd, EnableLbMonitorCrd, EnableNsxnetworkconfigCrd, EnableRoutesetCrd,
            EnableIpPoolCrd, EnableVmCrd, LbStatisticMonitorInterval, EnableLbVsStatisticsMonitor,
            NetworkInfoResyncPeriod, IpUsageAlarmThreshold],
    Coe := [NodeType],
    Vc := [VcEndpoint, SsoDomain, HttpsPort]
  ]

  datatype Field = Field(sec: Section, key: Key)

  const IMMUTABLE_FIELDS: seq<Field> := [Field(Coe, ClusterName), Field(NsxV3, L4LbAutoScaling)]
}

/** An INI file as the operator sees it: ordered sections, each a map from option to value.
    The DEFAULT section always exists. */
module Ini {
  import opened Common
  import opened Names

  type Options = map<Key, string>

  datatype IniFile = IniFile(order: seq<Section>, body: map<Section, Options>) {
    ghost predicate Valid() {
      && NoDuplicates(order)
      && (forall s :: s in order <==> s in body)
      && DEFAULT in body
    }

    predicate HasSection(sec: Section) { sec in body }

    /** Missing sections read as empty. */
    function Contents(sec: Section): Options {
      if sec in body then body[sec] else map[]
    }

    function Lookup(sec: Section, key: Key): Option<string> {
      if key in Contents(sec) then Some(Contents(sec)[key]) else None
    }

    /** Missing options read as the empty string. */
    function Value(sec: Section, key: Key): string {
      if key in Contents(sec) then Contents(sec)[key] else ""
    }
  }

  type File = f: IniFile | f.Valid() witness EMPTY_FILE

  const EMPTY_FILE := IniFile([DEFAULT], map[DEFAULT := map[]])

  /** A ConfigMap's trimmed `ncp.ini` text.  Equal texts load to equal files, while `layout`
      (comments, spacing, key order) may differ between texts of the same file. */
  datatype Document = Malformed(raw: string) | Text(file: File, layout: string)

  /** Two files agree when they have the same sections in the same order and the same options. */
  lemma SameFile(a: File, b: File)
    requires a.order == b.order
    requires forall s, k :: a.Lookup(s, k) == b.Lookup(s, k)
    ensures a == b
  {
    forall s | s in a.body ensures a.body[s] == b.body[s] {
      SameOptionsSameSection(a, b, s);
    }
    assert a.body.Keys == b.body.Keys;
  }

  lemma SameOptionsSameSection(a: File, b: File, s: Section)
    requires forall k :: a.Lookup(s, k) == b.Lookup(s, k)
    ensures a.Contents(s) == b.Contents(s)
  {
    forall k ensures (k in a.Contents(s)) == (k in b.Contents(s)) {
      assert a.Lookup(s, k) == b.Lookup(s, k);
    }
    forall k | k in a.Contents(s) ensures a.Contents(s)[k] == b.Contents(s)[k] {
      assert a.Lookup(s, k) == b.Lookup(s, k);
    }
  }

  function WithSection(f: File, sec: Section): (g: File)
    ensures g.HasSection(sec)
    ensures forall s, k :: g.Lookup(s, k) == f.Lookup(s, k)
    ensures forall s :: g.HasSection(s) <==> f.HasSection(s) || s == sec
  {
    if sec in f.body then f else IniFile(f.order + [sec], f.body[sec := map[]])
  }

  function WithKey(f: File, sec: Section, key: Key, val: string): (g: File)
    ensures forall s, k :: g.Lookup(s, k) == if s == sec && k == key then Some(val) else f.Lookup(s, k)
    ensures forall s :: g.HasSection(s) <==> f.HasSection(s) || s == sec
    ensures f.HasSection(sec) ==> g.order == f.order
  {
    var base := WithSection(f, sec);
    IniFile(base.order, base.body[sec := base.body[sec][key := val]])
  }

  /** `Section(sec).Key(key)`: creates both when missing. */
  function Touch(f: File, sec: Section, key: Key): (g: File)
    ensures forall s, k :: g.Lookup(s, k) == if s == sec && k == key then Some(f.Value(s, k)) else f.Lookup(s, k)
    ensures forall s :: g.HasSection(s) <==> f.HasSection(s) || s == sec
  {
    if f.Lookup(sec, key).Some? then f else WithKey(f, sec, key, "")
  }

  function Remove(order: seq<Section>, sec: Section): (r: seq<Section>)
    ensures forall s :: s in r <==> s in order && s != sec
    ensures NoDuplicates(order) ==> NoDuplicates(r)
  {
    if order == [] then []
    else
      var rest := Remove(order[1..], sec);
      assert NoDuplicates(order) ==> NoDuplicates(order[1..]) && order[0] !in rest;
      if order[0] == sec then rest else [order[0]] + rest
  }

  /** A mutable INI object, as the library hands it to the operator. */
  class Config {
    var file: File

    constructor (file: File)
      ensures this.file == file
    {
      this.file := file;
    }

    /** `Section(sec).Key(key).Value()` */
    method Key(sec: Section, key: Key) returns (val: string)
      modifies this
      ensures file == Touch(old(file), sec, key)
      ensures val == old(file).Value(sec, key)
    {
      val := file.Value(sec, key);
      file := Touch(file, sec, key);
    }

    /** `Section(sec).NewKey(key, val)` and `Section(sec).Key(key).SetValue(val)` */
    method SetKey(sec: Section, key: Key, val: string)
      modifies this
      ensures file == WithKey(old(file), sec, key, val)
    {
      file := WithKey(file, sec, key, val);
    }

    method NewSection(sec: Section)
      modifies this
      ensures file == WithSection(old(file), sec)
    {
      file := WithSection(file, sec);
    }

    method DeleteKey(sec: Section, key: Key)
      modifies this
      ensures file.order == old(file).order
      ensures forall s, k :: file.Lookup(s, k) == if s == sec && k == key then None else old(file).Lookup(s, k)
    {
      if sec in file.body {
        var opts := file.body[sec] - {key};
        file := IniFile(file.order, file.body[sec := opts]);
      }
    }

    method DeleteSection(sec: Section)
      requires sec != DEFAULT
      modifies this
      ensures file.order == Remove(old(file).order, sec)
      ensures forall s, k :: file.Lookup(s, k) == if s == sec then None else old(file).Lookup(s, k)
    {
      file := IniFile(Remove(file.order, sec), file.body - {sec});
    }
  }
}
