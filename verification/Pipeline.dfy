/** From the submitted text to the configuration that is compared and rendered:
    defaults, validation, removal of unsupported options, certificate paths. */
module Pipeline {
  import opened Common
  import opened Names
  import opened Ini

  /** A TLS secret; `None` is a missing data entry. */
  datatype Secret = Secret(crt: Option<string>, key: Option<string>, ca: Option<string>)

  datatype EntryName = TlsCrt | TlsKey | TlsCa

  /** An entry of a secret; a missing secret or entry reads as empty. */
  ghost function Entry(s: Option<Secret>, e: EntryName): string {
    if s.None? then ""
    else
      var v := match e
        case TlsCrt => s.value.crt
        case TlsKey => s.value.key
        case TlsCa => s.value.ca;
      if v.Some? then v.value else ""
  }

  /** The cluster network CRD: its CIDRs, and whether `validateClusterNetwork` accepts it. */
  datatype Network = Network(cidrs: seq<string>, valid: bool)

  function Join(parts: seq<string>): string {
    if parts == [] then "" else if |parts| == 1 then parts[0] else parts[0] + "," + Join(parts[1..])
  }

  /** Commas stand between the parts, and nowhere else. */
  lemma {:induction false} JoinParts(a: seq<string>, b: seq<string>)
    ensures Join([]) == "" && (|a| == 1 ==> Join(a) == a[0])
    ensures a != [] && b != [] ==> Join(a + b) == Join(a) + "," + Join(b)
  {
    if |a| == 1 {
      assert (a + b)[1..] == b;
    } else if a != [] && b != [] {
      assert (a + b)[1..] == a[1..] + b;
      JoinParts(a[1..], b);
    }
  }

  // ---------------------------------------------------------------- defaults

  datatype Default = Default(sec: Section, key: Key, val: string, force: bool)

  /** The options each platform forces or defaults, in the order they are filled. */
  function Defaults(p: Platform, net: Network): seq<Default> {
    match p
    case Kubernetes => [
      Default(Coe, Adaptor, "kubernetes", true),
      Default(NsxV3, PolicyNsxapi, "True", true),
      Default(Coe, EnableSnat, "True", false),
      Default(Ha, Enable, "True", false),
      Default(NsxNodeAgent, Mtu, "1500", false)]
    case OpenShift => [
      Default(Coe, Adaptor, "openshift4", true),
      Default(NsxV3, PolicyNsxapi, "True", true),
      Default(NsxV3, SingleTierTopology, "True", true),
      Default(Coe, EnableSnat, "True", false),
      Default(Ha, Enable, "True", false),
      Default(NsxNodeAgent, WaitingBeforeCniResponse, "3", false),
      Default(NsxNodeAgent, Mtu, "1500", false),
      Default(NsxNodeAgent, EnableOvsMcastSnooping, "false", false),
      Default(NsxV3, ContainerIpBlocks, Join(net.cidrs), true)]
  }

  /** A forced value always wins, a default only over an absent or empty option. */
  function FilledValue(d: Default, v: Option<string>): Option<string> {
    if d.force || v.None? || v.value == "" then Some(d.val) else v
  }

  function Fill(f: File, d: Default): (g: File)
    ensures g.order == f.order
  {
    if f.HasSection(d.sec) then WithKey(f, d.sec, d.key, FilledValue(d, f.Lookup(d.sec, d.key)).value) else f
  }

  function FillUpTo(f: File, ds: seq<Default>, n: nat): (g: File)
    requires n <= |ds|
    ensures g.order == f.order
  {
    if n == 0 then f else Fill(FillUpTo(f, ds, n - 1), ds[n - 1])
  }

  predicate Hits(d: Default, s: Section, k: Key) { d.sec == s && d.key == k }

  ghost predicate DistinctTargets(ds: seq<Default>) {
    forall i, j :: 0 <= i < j < |ds| ==> !Hits(ds[j], ds[i].sec, ds[i].key)
  }

  lemma FillAt(f: File, d: Default, s: Section, k: Key)
    ensures Fill(f, d).Lookup(s, k) ==
            if f.HasSection(s) && Hits(d, s, k) then FilledValue(d, f.Lookup(s, k)) else f.Lookup(s, k)
  {
  }

  /** Filling leaves every option that is not listed alone ... */
  lemma {:induction false} UntargetedOption(f: File, ds: seq<Default>, n: nat, s: Section, k: Key)
    requires n <= |ds| && forall i :: 0 <= i < n ==> !Hits(ds[i], s, k)
    ensures FillUpTo(f, ds, n).Lookup(s, k) == f.Lookup(s, k)
  {
    if n > 0 {
      UntargetedOption(f, ds, n - 1, s, k);
      FillAt(FillUpTo(f, ds, n - 1), ds[n - 1], s, k);
    }
  }

  /** ... and changes the listed ones by the rule above. */
  lemma {:induction false} TargetedOption(f: File, ds: seq<Default>, n: nat, i: nat)
    requires i < n <= |ds| && DistinctTargets(ds) && f.HasSection(ds[i].sec)
    ensures FillUpTo(f, ds, n).Lookup(ds[i].sec, ds[i].key) == FilledValue(ds[i], f.Lookup(ds[i].sec, ds[i].key))
  {
    var s, k := ds[i].sec, ds[i].key;
    var before := FillUpTo(f, ds, n - 1);
    SameSections(f, before, s);
    FillAt(before, ds[n - 1], s, k);
    if i < n - 1 {
      TargetedOption(f, ds, n - 1, i);
    } else {
      forall j | 0 <= j < i ensures !Hits(ds[j], s, k) {
        assert !Hits(ds[i], ds[j].sec, ds[j].key);
      }
      UntargetedOption(f, ds, i, s, k);
    }
  }

  lemma SameSections(f: File, g: File, s: Section)
    requires f.order == g.order
    ensures f.HasSection(s) == g.HasSection(s)
  {
    assert s in f.order <==> s in g.order;
  }

  /** The first `n` defaults all find their section. */
  predicate SectionsExist(f: File, ds: seq<Default>, n: nat)
    requires n <= |ds|
  {
    n == 0 || (SectionsExist(f, ds, n - 1) && f.HasSection(ds[n - 1].sec))
  }

  function FillAll(f: File, p: Platform, net: Network): File {
    FillUpTo(f, Defaults(p, net), |Defaults(p, net)|)
  }

  /** `fillDefault` */
  method FillDefault(cfg: Config, sec: Section, key: Key, val: string, force: bool) returns (ok: bool)
    modifies cfg
    ensures ok == old(cfg.file).HasSection(sec)
    ensures cfg.file == Fill(old(cfg.file), Default(sec, key, val, force))
  {
    if !cfg.file.HasSection(sec) {
      return false;
    }
    if cfg.file.Lookup(sec, key).None? {
      cfg.SetKey(sec, key, val);
    } else if cfg.file.Value(sec, key) == "" || force {
      cfg.SetKey(sec, key, val);
    } else {
      SameValue(cfg.file, sec, key);
    }
    ok := true;
  }

  lemma SameValue(f: File, sec: Section, key: Key)
    requires f.Lookup(sec, key).Some?
    ensures WithKey(f, sec, key, f.Value(sec, key)) == f
  {
    SameFile(WithKey(f, sec, key, f.Value(sec, key)), f);
  }

  /** One `fillDefault` call, remembering in `ok` whether any call failed so far. */
  method FillNext(cfg: Config, d: Default, before: bool, ghost f: File, ghost ds: seq<Default>, ghost n: nat)
    returns (ok: bool)
    requires n < |ds| && ds[n] == d
    requires cfg.file == FillUpTo(f, ds, n) && before == SectionsExist(f, ds, n)
    modifies cfg
    ensures cfg.file == FillUpTo(f, ds, n + 1) && ok == SectionsExist(f, ds, n + 1)
  {
    SameSections(f, cfg.file, d.sec);
    var filled := FillDefault(cfg, d.sec, d.key, d.val, d.force);
    ok := before && filled;
  }

  /** Looking at coe.adaptor first creates a missing coe section. */
  method FillDefaultsK8s(cfg: Config, net: Network) returns (ok: bool)
    modifies cfg
    ensures ok == SectionsExist(WithSection(old(cfg.file), Coe), Defaults(Kubernetes, net), 5)
    ensures cfg.file == FillAll(WithSection(old(cfg.file), Coe), Kubernetes, net)
  {
    cfg.NewSection(Coe);
    ok := FillOptionsK8s(cfg, net);
  }

  method FillOptionsK8s(cfg: Config, net: Network) returns (ok: bool)
    modifies cfg
    ensures cfg.file == FillUpTo(old(cfg.file), Defaults(Kubernetes, net), 5)
    ensures ok == SectionsExist(old(cfg.file), Defaults(Kubernetes, net), 5)
  {
    ghost var f, ds := cfg.file, Defaults(Kubernetes, net);
    ok := FillNext(cfg, Default(Coe, Adaptor, "kubernetes", true), true, f, ds, 0);
    ok := FillNext(cfg, Default(NsxV3, PolicyNsxapi, "True", true), ok, f, ds, 1);
    ok := FillNext(cfg, Default(Coe, EnableSnat, "True", false), ok, f, ds, 2);
    ok := FillNext(cfg, Default(Ha, Enable, "True", false), ok, f, ds, 3);
    ok := FillNext(cfg, Default(NsxNodeAgent, Mtu, "1500", false), ok, f, ds, 4);
  }

  method FillDefaultsOc(cfg: Config, net: Network) returns (ok: bool)
    modifies cfg
    ensures ok == SectionsExist(WithSection(old(cfg.file), Coe), Defaults(OpenShift, net), 9)
    ensures cfg.file == FillAll(WithSection(old(cfg.file), Coe), OpenShift, net)
  {
    cfg.NewSection(Coe);
    ghost var f := cfg.file;
    ok := FillClusterDefaultsOc(cfg, net);
    ok := FillAgentDefaultsOc(cfg, net, ok, f);
  }

  /** The first half of the OpenShift defaults. */
  method FillClusterDefaultsOc(cfg: Config, net: Network) returns (ok: bool)
    modifies cfg
    ensures cfg.file == FillUpTo(old(cfg.file), Defaults(OpenShift, net), 5)
    ensures ok == SectionsExist(old(cfg.file), Defaults(OpenShift, net), 5)
  {
    ghost var f, ds := cfg.file, Defaults(OpenShift, net);
    ok := FillNext(cfg, Default(Coe, Adaptor, "openshift4", true), true, f, ds, 0);
    ok := FillNext(cfg, Default(NsxV3, PolicyNsxapi, "True", true), ok, f, ds, 1);
    ok := FillNext(cfg, Default(NsxV3, SingleTierTopology, "True", true), ok, f, ds, 2);
    ok := FillNext(cfg, Default(Coe, EnableSnat, "True", false), ok, f, ds, 3);
    ok := FillNext(cfg, Default(Ha, Enable, "True", false), ok, f, ds, 4);
  }

  /** The agent options and the cluster network, the second half of the OpenShift defaults. */
  method FillAgentDefaultsOc(cfg: Config, net: Network, before: bool, ghost f: File) returns (ok: bool)
    requires cfg.file == FillUpTo(f, Defaults(OpenShift, net), 5)
    requires before == SectionsExist(f, Defaults(OpenShift, net), 5)
    modifies cfg
    ensures cfg.file == FillUpTo(f, Defaults(OpenShift, net), 9) && ok == SectionsExist(f, Defaults(OpenShift, net), 9)
  {
    ghost var ds := Defaults(OpenShift, net);
    ok := FillNext(cfg, Default(NsxNodeAgent, WaitingBeforeCniResponse, "3", false), before, f, ds, 5);
    ok := FillNext(cfg, Default(NsxNodeAgent, Mtu, "1500", false), ok, f, ds, 6);
    ok := FillNext(cfg, Default(NsxNodeAgent, EnableOvsMcastSnooping, "false", false), ok, f, ds, 7);
    ok := FillNext(cfg, Default(NsxV3, ContainerIpBlocks, Join(net.cidrs), true), ok, f, ds, 8);
  }

  // ---------------------------------------------------------------- unsupported options

  predicate Listed(options: map<Section, seq<Key>>, s: Section, k: Key) {
    s in options && k in options[s]
  }

  /** The options listed in either table, spelled out. */
  predicate Unsupported(s: Section, k: Key) {
    || (s.NsxV3? && UnsupportedNsxV3(k))
    || (s.K8s? && UnsupportedK8s(k))
    || (s.Coe? && k.NodeType?)
    || (s.Vc? && (k.VcEndpoint? || k.SsoDomain? || k.HttpsPort?))
  }

  predicate UnsupportedNsxV3(k: Key) {
    k.TopFirewallSectionMarker? || k.BottomFirewallSectionMarker? || k.DlbL4Persistence? || k.SingleTierSrTopology? ||
    k.EnforcementPoint? || k.SearchNodeTagOn? || k.VifAppIdType? || k.ConfigureT0Redistribution? || k.MultiT0?
  }

  predicate UnsupportedK8s(k: Key) {
    k.EnableVnetCrd? || k.EnableLbMonitorCrd? || k.EnableNsxnetworkconfigCrd? || k.EnableRoutesetCrd? ||
    k.EnableIpPoolCrd? || k.EnableVmCrd? || k.LbStatisticMonitorInterval? || k.EnableLbVsStatisticsMonitor? ||
    k.NetworkInfoResyncPeriod? || k.IpUsageAlarmThreshold?
  }

  lemma UnsupportedIsListed(s: Section, k: Key)
    ensures Unsupported(s, k) <==> Listed(MP_OPTIONS, s, k) || Listed(WCP_OPTIONS, s, k)
  {
    if s.NsxV3? {
      ListedNsxV3(k);
    } else if s.K8s? {
      ListedK8s(k);
    } else {
      ListedElsewhere(s, k);
    }
  }

  lemma ListedElsewhere(s: Section, k: Key)
    requires s != NsxV3 && s != Section.K8s
    ensures !Listed(MP_OPTIONS, s, k)
    ensures Listed(WCP_OPTIONS, s, k) <==>
            (s.Coe? && k.NodeType?) || (s.Vc? && (k.VcEndpoint? || k.SsoDomain? || k.HttpsPort?))
  {
    assert s in WCP_OPTIONS ==> s == Coe || s == Vc;
    assert WCP_OPTIONS[Coe] == [NodeType] && WCP_OPTIONS[Vc] == [VcEndpoint, SsoDomain, HttpsPort];
  }

  lemma ListedNsxV3(k: Key)
    ensures UnsupportedNsxV3(k) <==> Listed(MP_OPTIONS, NsxV3, k) || Listed(WCP_OPTIONS, NsxV3, k)
  {
    var mp, wcp := MP_OPTIONS[NsxV3], WCP_OPTIONS[NsxV3];
    assert Listed(MP_OPTIONS, NsxV3, k) == (k in mp) && Listed(WCP_OPTIONS, NsxV3, k) == (k in wcp);
    MembersNsxV3(wcp, k);
    assert k in mp <==> k == TopFirewallSectionMarker || k == BottomFirewallSectionMarker;
  }

  lemma MembersNsxV3(wcp: seq<Key>, k: Key)
    requires wcp == [DlbL4Persistence, SingleTierSrTopology, EnforcementPoint, SearchNodeTagOn,
                     VifAppIdType, ConfigureT0Redistribution, MultiT0]
    ensures UnsupportedNsxV3(k) <==> k.TopFirewallSectionMarker? || k.BottomFirewallSectionMarker? || k in wcp
  {
  }

  lemma ListedK8s(k: Key)
    ensures !Listed(MP_OPTIONS, Section.K8s, k)
    ensures UnsupportedK8s(k) <==> Listed(WCP_OPTIONS, Section.K8s, k)
  {
    var wcp := WCP_OPTIONS[Section.K8s];
    assert Listed(WCP_OPTIONS, Section.K8s, k) == (k in wcp);
    MembersK8s(wcp, k);
  }

  lemma MembersK8s(wcp: seq<Key>, k: Key)
    requires wcp ==
      [EnableVnetCrd, EnableLbMonitorCrd, EnableNsxnetworkconfigCrd, EnableRoutesetCrd, EnableIpPoolCrd, EnableVmCrd,
       LbStatisticMonitorInterval, EnableLbVsStatisticsMonitor, NetworkInfoResyncPeriod, IpUsageAlarmThreshold]
    ensures UnsupportedK8s(k) <==> k in wcp
  {
  }

  /** Options the operator deletes: listed as unsupported and not empty. */
  predicate Dropped(f: File, s: Section, k: Key) {
    Unsupported(s, k) && f.Value(s, k) != ""
  }

  ghost predicate NeedsCleaning(f: File) {
    f.Contents(Cf) != map[] || exists s, k :: Dropped(f, s, k)
  }

  /** The whole cf section goes, and the dropped options; an untouched file is not rewritten. */
  ghost function Clean(f: File): File {
    if !NeedsCleaning(f) then f
    else
      CleanOrderIs(f);
      IniFile(CleanOrder(f), map s | s in CleanOrder(f) :: Kept(f, s))
  }

  ghost function CleanOrder(f: File): seq<Section> {
    if f.Contents(Cf) != map[] then Remove(f.order, Cf) else WithSection(f, Cf).order
  }

  lemma CleanOrderIs(f: File)
    ensures NoDuplicates(CleanOrder(f))
    ensures forall s :: s in CleanOrder(f) <==> if s == Cf then f.Contents(Cf) == map[] else f.HasSection(s)
  {
    forall s ensures s in CleanOrder(f) <==> if s == Cf then f.Contents(Cf) == map[] else f.HasSection(s) {
      assert s in f.order <==> f.HasSection(s);
      assert s in WithSection(f, Cf).order <==> WithSection(f, Cf).HasSection(s);
    }
  }

  ghost function Kept(f: File, s: Section): Options {
    map k | k in f.Contents(s) && !Dropped(f, s, k) :: f.Contents(s)[k]
  }

  lemma CleanAt(f: File, s: Section, k: Key)
    ensures Clean(f).Lookup(s, k) == if s == Cf || Dropped(f, s, k) then None else f.Lookup(s, k)
    ensures s != Cf ==> Clean(f).HasSection(s) == f.HasSection(s)
  {
    if NeedsCleaning(f) {
      CleanContents(f, s);
      KeptAt(f, s, k);
    } else {
      assert !Dropped(f, s, k);
    }
  }

  lemma KeptAt(f: File, s: Section, k: Key)
    ensures k in Kept(f, s) <==> k in f.Contents(s) && !Dropped(f, s, k)
    ensures k in Kept(f, s) ==> Kept(f, s)[k] == f.Contents(s)[k]
  {
  }

  lemma CleanContents(f: File, s: Section)
    requires NeedsCleaning(f)
    ensures Clean(f).Contents(s) == if s == Cf then map[] else Kept(f, s)
    ensures s != Cf ==> Clean(f).HasSection(s) == f.HasSection(s)
  {
    CleanSections(f, s);
    if f.Contents(s) == map[] {
      KeptOfNothing(f, s);
    }
  }

  lemma CleanSections(f: File, s: Section)
    requires NeedsCleaning(f)
    ensures Clean(f).HasSection(s) <==> if s == Cf then f.Contents(Cf) == map[] else f.HasSection(s)
    ensures Clean(f).HasSection(s) ==> Clean(f).Contents(s) == Kept(f, s)
  {
    CleanOrderIs(f);
    assert Clean(f).HasSection(s) <==> s in CleanOrder(f);
  }

  lemma KeptOfNothing(f: File, s: Section)
    requires f.Contents(s) == map[]
    ensures Kept(f, s) == map[]
  {
    forall k ensures k !in Kept(f, s) { KeptAt(f, s, k); }
  }

  /** Deletes the non-empty options of one table. */
  method RemoveListed(cfg: Config, f: File, options: map<Section, seq<Key>>) returns (changed: bool)
    modifies cfg
    ensures cfg.file.order == old(cfg.file).order
    ensures forall s, k ::
              cfg.file.Lookup(s, k) ==
                if Listed(options, s, k) && f.Value(s, k) != "" then None else old(cfg.file).Lookup(s, k)
    ensures changed <==> exists s, k :: Listed(options, s, k) && f.Value(s, k) != ""
  {
    changed := false;
    var todo := options.Keys;
    while todo != {}
      invariant todo <= options.Keys
      invariant cfg.file.order == old(cfg.file).order
      invariant forall s, k ::
                  cfg.file.Lookup(s, k) ==
                    if s !in todo && Listed(options, s, k) && f.Value(s, k) != "" then None
                    else old(cfg.file).Lookup(s, k)
      invariant changed <==> exists s, k :: s !in todo && Listed(options, s, k) && f.Value(s, k) != ""
    {
      var sec :| sec in todo;
      var any := RemoveKeys(cfg, f, sec, options[sec]);
      changed := changed || any;
      todo := todo - {sec};
    }
  }

  method RemoveKeys(cfg: Config, f: File, sec: Section, keys: seq<Key>) returns (changed: bool)
    modifies cfg
    ensures cfg.file.order == old(cfg.file).order
    ensures forall s, k ::
              cfg.file.Lookup(s, k) ==
                if s == sec && k in keys && f.Value(s, k) != "" then None else old(cfg.file).Lookup(s, k)
    ensures changed <==> exists k :: k in keys && f.Value(sec, k) != ""
  {
    changed := false;
    for i := 0 to |keys|
      invariant cfg.file.order == old(cfg.file).order
      invariant forall s, k ::
                  cfg.file.Lookup(s, k) ==
                    if s == sec && k in keys[..i] && f.Value(s, k) != "" then None else old(cfg.file).Lookup(s, k)
      invariant changed <==> exists k :: k in keys[..i] && f.Value(sec, k) != ""
    {
      if f.Value(sec, keys[i]) != "" {
        cfg.DeleteKey(sec, keys[i]);
        changed := true;
      }
    }
  }

  method RemoveUnsupported(cfg: Config) returns (changed: bool)
    modifies cfg
    ensures cfg.file.order == old(cfg.file).order
    ensures forall s, k ::
              cfg.file.Lookup(s, k) ==
                if Dropped(old(cfg.file), s, k) then None else old(cfg.file).Lookup(s, k)
    ensures changed <==> exists s, k :: Dropped(old(cfg.file), s, k)
  {
    var f := cfg.file;
    var mp := RemoveListed(cfg, f, MP_OPTIONS);
    var wcp := RemoveListed(cfg, f, WCP_OPTIONS);
    changed := mp || wcp;
    forall s, k
      ensures Dropped(f, s, k) <==>
        (Listed(MP_OPTIONS, s, k) && f.Value(s, k) != "") || (Listed(WCP_OPTIONS, s, k) && f.Value(s, k) != "")
    {
      UnsupportedIsListed(s, k);
    }
  }

  lemma CfSupported(k: Key)
    ensures !Unsupported(Cf, k)
  {
  }

  /** `g` has the sections and options that cleaning promises. */
  lemma IsClean(f: File, g: File)
    requires NeedsCleaning(f)
    requires g.order == CleanOrder(f)
    requires forall s, k :: g.Lookup(s, k) == if s == Cf || Dropped(f, s, k) then None else f.Lookup(s, k)
    ensures g == Clean(f)
  {
    forall s, k ensures g.Lookup(s, k) == Clean(f).Lookup(s, k) {
      CleanAt(f, s, k);
    }
    SameFile(g, Clean(f));
  }

  /** `validateUnSupportedOptions` */
  method ValidateUnSupportedOptions(f: File) returns (g: File)
    ensures g == Clean(f)
  {
    var cfg := new Config(f);
    var changed := RemoveUnsupported(cfg);
    forall k ensures cfg.file.Lookup(Cf, k) == f.Lookup(Cf, k) { CfSupported(k); }
    SameOptionsSameSection(cfg.file, f, Cf);
    SameSections(cfg.file, f, Cf);
    cfg.NewSection(Cf);
    if |cfg.file.Contents(Cf)| != 0 {
      cfg.DeleteSection(Cf);
      changed := true;
    }
    if changed {
      IsClean(f, cfg.file);
      return cfg.file;
    }
    return f;
  }

  // ---------------------------------------------------------------- validation

  predicate IsDigit(c: char) { '0' as int <= c as int <= '9' as int }

  function DigitsValue(s: string): nat
    requires forall i :: 0 <= i < |s| ==> IsDigit(s[i])
  {
    if s == "" then 0
    else
      assert IsDigit(s[|s| - 1]);
      10 * DigitsValue(s[..|s| - 1]) + (s[|s| - 1] as int - '0' as int)
  }

  /** `strconv.Atoi` succeeds: an optional sign and digits within the 64-bit range. */
  predicate IsInteger(s: string) {
    var digits := if s != "" && (s[0] == '-' || s[0] == '+') then s[1..] else s;
    && digits != ""
    && (forall i :: 0 <= i < |digits| ==> IsDigit(digits[i]))
    && DigitsValue(digits) < 0x8000_0000_0000_0000 + (if s[0] == '-' then 1 else 0)
  }

  function Decimal(n: nat): string {
    if n < 10 then [(n + '0' as int) as char] else Decimal(n / 10) + [(n % 10 + '0' as int) as char]
  }

  lemma {:induction false} DecimalDigits(n: nat)
    ensures Decimal(n) != "" && forall i :: 0 <= i < |Decimal(n)| ==> IsDigit(Decimal(n)[i])
    ensures DigitsValue(Decimal(n)) == n
  {
    var s := Decimal(n);
    if n < 10 {
      assert s[..|s| - 1] == "";
    } else {
      DecimalDigits(n / 10);
      assert s[..|s| - 1] == Decimal(n / 10);
    }
  }

  /** The numbers that are written with or without a sign are the integers of 64 bits. */
  lemma IntegersExactly(n: nat)
    ensures IsInteger(Decimal(n)) <==> n <= 0x7fff_ffff_ffff_ffff
    ensures IsInteger("+" + Decimal(n)) <==> n <= 0x7fff_ffff_ffff_ffff
    ensures IsInteger("-" + Decimal(n)) <==> n <= 0x8000_0000_0000_0000
  {
    DecimalDigits(n);
    assert ("+" + Decimal(n))[1..] == Decimal(n) && ("-" + Decimal(n))[1..] == Decimal(n);
    assert IsDigit(Decimal(n)[0]);
  }

  /** Nothing else than digits may follow. */
  lemma OnlyDigits(s: string, i: nat)
    requires IsInteger(s) && 0 < i < |s|
    ensures '0' as int <= s[i] as int <= '9' as int
  {
    var signed := s[0] == '-' || s[0] == '+';
    var digits := if signed then s[1..] else s;
    var at := if signed then i - 1 else i;
    assert digits[at] == s[i] && IsDigit(digits[at]);
  }

  /** `strconv.ParseBool` */
  function ParseBool(s: string): Option<bool> {
    if s in ["1", "t", "T", "TRUE", "true", "True"] then Some(true)
    else if s in ["0", "f", "F", "FALSE", "false", "False"] then Some(false)
    else None
  }

  predicate Accepts(p: Platform, net: Network, f: File) {
    && f.Value(Coe, ClusterName) != ""
    && f.Value(NsxV3, NsxApiManagers) != ""
    && (f.Value(Coe, EnableSnat) == "True" ==> f.Value(NsxV3, ExternalIpPools) != "")
    && (p.Kubernetes? ==> f.Value(NsxV3, ContainerIpBlocks) != "")
    && (f.Value(NsxV3, Tier0Gateway) != "" || f.Value(NsxV3, TopTierRouter) != "")
    && IsInteger(f.Value(NsxNodeAgent, Mtu))
    && f.Value(DEFAULT, LogFile) == ""
    && (p.OpenShift? ==> net.valid)
  }

  /** FillDefaults followed by Validate; `None` when either reports an error. */
  ghost function Submit(p: Platform, net: Network, f: File): Option<File> {
    var start := WithSection(f, Coe);
    if !SectionsExist(start, Defaults(p, net), |Defaults(p, net)|) then None
    else if !Accepts(p, net, FillAll(start, p, net)) then None
    else Some(Clean(FillAll(start, p, net)))
  }

  /** A configuration without a coe section has no cluster name and is not accepted. */
  lemma AcceptedHasCoe(p: Platform, net: Network, f: File)
    requires Submit(p, net, f).Some?
    ensures f.HasSection(Coe) && WithSection(f, Coe) == f
  {
    var start, ds := WithSection(f, Coe), Defaults(p, net);
    ClusterNameUntargeted(p, net);
    UntargetedOption(start, ds, |ds|, Coe, ClusterName);
    assert f.Lookup(Coe, ClusterName).Some?;
  }

  lemma ClusterNameUntargeted(p: Platform, net: Network)
    ensures forall i :: 0 <= i < |Defaults(p, net)| ==> !Hits(Defaults(p, net)[i], Coe, ClusterName)
  {
  }

  lemma DefaultsDistinct(p: Platform, net: Network)
    ensures DistinctTargets(Defaults(p, net))
  {
    var ds := Defaults(p, net);
    forall i, j | 0 <= i < j < |ds| ensures !Hits(ds[j], ds[i].sec, ds[i].key) {
    }
  }

  lemma DefaultsSupported(p: Platform, net: Network, i: nat)
    requires i < |Defaults(p, net)|
    ensures var d := Defaults(p, net)[i]; !Unsupported(d.sec, d.key) && d.sec != Cf
  {
  }

  lemma {:induction false} SectionExists(f: File, ds: seq<Default>, n: nat, i: nat)
    requires i < n <= |ds| && SectionsExist(f, ds, n)
    ensures f.HasSection(ds[i].sec)
  {
    if i < n - 1 {
      SectionExists(f, ds, n - 1, i);
    }
  }

  ghost predicate Targeted(ds: seq<Default>, s: Section, k: Key) {
    exists i :: 0 <= i < |ds| && Hits(ds[i], s, k)
  }

  /** An accepted configuration, option by option: targeted options follow the forcing and defaulting
      rule, non-empty unsupported options and the cf section are gone, everything else is preserved. */
  lemma SubmittedOptions(p: Platform, net: Network, f: File, s: Section, k: Key)
    requires Submit(p, net, f).Some?
    ensures var g, ds := Submit(p, net, f).value, Defaults(p, net);
            && (forall i :: 0 <= i < |ds| && Hits(ds[i], s, k) ==> g.Lookup(s, k) == FilledValue(ds[i], f.Lookup(s, k)))
            && (!Targeted(ds, s, k) ==> g.Lookup(s, k) == if s == Cf || Dropped(f, s, k) then None else f.Lookup(s, k))
  {
    var ds := Defaults(p, net);
    forall i | 0 <= i < |ds| && Hits(ds[i], s, k)
      ensures Submit(p, net, f).value.Lookup(s, k) == FilledValue(ds[i], f.Lookup(s, k))
    {
      SubmittedTarget(p, net, f, i);
    }
    if !Targeted(ds, s, k) {
      SubmittedOther(p, net, f, ds, s, k);
    }
  }

  lemma SubmittedTarget(p: Platform, net: Network, f: File, i: nat)
    requires Submit(p, net, f).Some? && i < |Defaults(p, net)|
    ensures var d := Defaults(p, net)[i];
            Submit(p, net, f).value.Lookup(d.sec, d.key) == FilledValue(d, f.Lookup(d.sec, d.key))
  {
    var ds := Defaults(p, net);
    var s, k := ds[i].sec, ds[i].key;
    AcceptedHasCoe(p, net, f);
    SectionExists(f, ds, |ds|, i);
    DefaultsDistinct(p, net);
    TargetedOption(f, ds, |ds|, i);
    DefaultsSupported(p, net, i);
    CleanAt(FillAll(f, p, net), s, k);
  }

  lemma SubmittedOther(p: Platform, net: Network, f: File, ds: seq<Default>, s: Section, k: Key)
    requires Submit(p, net, f).Some? && ds == Defaults(p, net) && !Targeted(ds, s, k)
    ensures Submit(p, net, f).value.Lookup(s, k) == if s == Cf || Dropped(f, s, k) then None else f.Lookup(s, k)
  {
    AcceptedHasCoe(p, net, f);
    UntargetedOption(f, ds, |ds|, s, k);
    CleanUnchanged(f, FillAll(f, p, net), s, k);
  }

  lemma CleanUnchanged(f: File, h: File, s: Section, k: Key)
    requires h.Lookup(s, k) == f.Lookup(s, k)
    ensures Clean(h).Lookup(s, k) == if s == Cf || Dropped(f, s, k) then None else f.Lookup(s, k)
  {
    CleanAt(h, s, k);
    assert h.Value(s, k) == f.Value(s, k);
  }

  // ---------------------------------------------------------------- every option, spelled out

  /** The value, or the default when it is absent or empty. */
  ghost function OrDefault(v: Option<string>, d: string): Option<string> {
    if v.None? || v.value == "" then Some(d) else v
  }

  /** What filling the defaults makes of an option with value `v`. */
  ghost function FilledTo(p: Platform, net: Network, s: Section, k: Key, v: Option<string>): Option<string> {
    if s.Coe? then FilledCoe(p, k, v)
    else if s.NsxV3? then FilledNsxV3(p, net, k, v)
    else if s.Ha? && k.Enable? then OrDefault(v, "True")
    else if s.NsxNodeAgent? then FilledAgent(p, k, v)
    else v
  }

  ghost function FilledCoe(p: Platform, k: Key, v: Option<string>): Option<string> {
    if k.Adaptor? then Some(if p.Kubernetes? then "kubernetes" else "openshift4")
    else if k.EnableSnat? then OrDefault(v, "True")
    else v
  }

  ghost function FilledNsxV3(p: Platform, net: Network, k: Key, v: Option<string>): Option<string> {
    if k.PolicyNsxapi? || (p.OpenShift? && k.SingleTierTopology?) then Some("True")
    else if p.OpenShift? && k.ContainerIpBlocks? then Some(Join(net.cidrs))
    else v
  }

  ghost function FilledAgent(p: Platform, k: Key, v: Option<string>): Option<string> {
    if k.Mtu? then OrDefault(v, "1500")
    else if p.OpenShift? && k.WaitingBeforeCniResponse? then OrDefault(v, "3")
    else if p.OpenShift? && k.EnableOvsMcastSnooping? then OrDefault(v, "false")
    else v
  }

  lemma FilledRule(p: Platform, net: Network, i: nat, v: Option<string>)
    requires i < |Defaults(p, net)|
    ensures var d := Defaults(p, net)[i]; FilledValue(d, v) == FilledTo(p, net, d.sec, d.key, v)
  {
  }

  lemma FilledElsewhereK8s(net: Network, ds: seq<Default>, s: Section, k: Key, v: Option<string>)
    requires ds == Defaults(Kubernetes, net) && !Targeted(ds, s, k)
    ensures FilledTo(Kubernetes, net, s, k, v) == v
  {
    assert !Hits(ds[0], s, k) && !Hits(ds[1], s, k) && !Hits(ds[2], s, k);
    assert !Hits(ds[3], s, k) && !Hits(ds[4], s, k);
  }

  lemma FilledElsewhereOc(net: Network, ds: seq<Default>, s: Section, k: Key, v: Option<string>)
    requires ds == Defaults(OpenShift, net) && !Targeted(ds, s, k)
    ensures FilledTo(OpenShift, net, s, k, v) == v
  {
    assert !Hits(ds[0], s, k) && !Hits(ds[1], s, k) && !Hits(ds[2], s, k);
    assert !Hits(ds[3], s, k) && !Hits(ds[4], s, k) && !Hits(ds[5], s, k);
    assert !Hits(ds[6], s, k) && !Hits(ds[7], s, k) && !Hits(ds[8], s, k);
  }

  lemma FilledOptions(p: Platform, net: Network, f: File, s: Section, k: Key)
    requires SectionsExist(f, Defaults(p, net), |Defaults(p, net)|)
    ensures FillAll(f, p, net).Lookup(s, k) == FilledTo(p, net, s, k, f.Lookup(s, k))
  {
    FilledBy(p, net, f, Defaults(p, net), s, k);
  }

  lemma FilledBy(p: Platform, net: Network, f: File, ds: seq<Default>, s: Section, k: Key)
    requires ds == Defaults(p, net) && SectionsExist(f, ds, |ds|)
    ensures FillUpTo(f, ds, |ds|).Lookup(s, k) == FilledTo(p, net, s, k, f.Lookup(s, k))
  {
    var v := f.Lookup(s, k);
    DefaultsDistinct(p, net);
    forall i | 0 <= i < |ds| && Hits(ds[i], s, k) ensures FilledValue(ds[i], v) == FilledTo(p, net, s, k, v) {
      FilledRule(p, net, i, v);
    }
    if !Targeted(ds, s, k) {
      if p.Kubernetes? {
        FilledElsewhereK8s(net, ds, s, k, v);
      } else {
        FilledElsewhereOc(net, ds, s, k, v);
      }
    }
    FilledHitOrMiss(f, ds, s, k, FilledTo(p, net, s, k, v));
  }

  lemma FilledHitOrMiss(f: File, ds: seq<Default>, s: Section, k: Key, filled: Option<string>)
    requires DistinctTargets(ds) && SectionsExist(f, ds, |ds|)
    requires forall i :: 0 <= i < |ds| && Hits(ds[i], s, k) ==> FilledValue(ds[i], f.Lookup(s, k)) == filled
    requires !Targeted(ds, s, k) ==> f.Lookup(s, k) == filled
    ensures FillUpTo(f, ds, |ds|).Lookup(s, k) == filled
  {
    if i :| 0 <= i < |ds| && Hits(ds[i], s, k) {
      SectionExists(f, ds, |ds|, i);
      TargetedOption(f, ds, |ds|, i);
    } else {
      UntargetedOption(f, ds, |ds|, s, k);
    }
  }

  /** Every option of an accepted configuration, in terms of the submitted one. */
  lemma SubmittedValues(p: Platform, net: Network, f: File, s: Section, k: Key)
    requires Submit(p, net, f).Some?
    ensures Submit(p, net, f).value.Lookup(s, k) ==
            if s == Cf || (Unsupported(s, k) && f.Value(s, k) != "") then None
            else FilledTo(p, net, s, k, f.Lookup(s, k))
  {
    AcceptedHasCoe(p, net, f);
    FilledOptions(p, net, f, s, k);
    CleanedValue(p, net, f, FillAll(f, p, net), s, k);
  }

  lemma CleanedValue(p: Platform, net: Network, f: File, h: File, s: Section, k: Key)
    requires h.Lookup(s, k) == FilledTo(p, net, s, k, f.Lookup(s, k))
    ensures Clean(h).Lookup(s, k) ==
            if s == Cf || (Unsupported(s, k) && f.Value(s, k) != "") then None
            else FilledTo(p, net, s, k, f.Lookup(s, k))
  {
    CleanAt(h, s, k);
    UnsupportedUnfilled(p, net, s, k, f.Lookup(s, k));
    UnsupportedKept(f, h, s, k);
  }

  lemma UnsupportedKept(f: File, h: File, s: Section, k: Key)
    ensures h.Lookup(s, k) == f.Lookup(s, k) ==> h.Value(s, k) == f.Value(s, k)
  {
  }

  lemma UnsupportedUnfilled(p: Platform, net: Network, s: Section, k: Key, v: Option<string>)
    ensures Unsupported(s, k) ==> FilledTo(p, net, s, k, v) == v
  {
  }

  /** The sections of an accepted configuration: cf goes with its options, and looking for it creates it when something
      else had to go. */
  lemma SubmittedHasSection(p: Platform, net: Network, f: File, s: Section)
    requires Submit(p, net, f).Some?
    ensures Submit(p, net, f).value.HasSection(s) <==>
            if s != Cf then f.HasSection(s)
            else
              && f.Contents(Cf) == map[]
              && (f.HasSection(Cf) || exists t, k :: Unsupported(t, k) && f.Value(t, k) != "")
  {
    AcceptedHasCoe(p, net, f);
    var h := FillAll(f, p, net);
    forall t, k ensures Unsupported(t, k) || t == Cf ==> h.Lookup(t, k) == f.Lookup(t, k) {
      FilledOptions(p, net, f, t, k);
      UnsupportedUnfilled(p, net, t, k, f.Lookup(t, k));
    }
    CleanedSection(f, h, s);
  }

  lemma CleanedSection(f: File, h: File, s: Section)
    requires h.order == f.order
    requires forall t, k :: Unsupported(t, k) || t == Cf ==> h.Lookup(t, k) == f.Lookup(t, k)
    ensures Clean(h).HasSection(s) <==>
            if s != Cf then f.HasSection(s)
            else
              && f.Contents(Cf) == map[]
              && (f.HasSection(Cf) || exists t, k :: Unsupported(t, k) && f.Value(t, k) != "")
  {
    SameSections(f, h, s);
    SameOptionsSameSection(f, h, Cf);
    forall t, k | Unsupported(t, k) ensures h.Value(t, k) == f.Value(t, k) {
      assert h.Lookup(t, k) == f.Lookup(t, k);
    }
    if t, k :| Unsupported(t, k) && f.Value(t, k) != "" {
      assert Dropped(h, t, k);
    }
    if NeedsCleaning(h) {
      CleanSections(h, s);
    }
  }

  lemma AllSections(p: Platform, net: Network, f: File)
    requires f.HasSection(Coe)
    ensures SectionsExist(f, Defaults(p, net), |Defaults(p, net)|) <==>
            f.HasSection(NsxV3) && f.HasSection(Ha) && f.HasSection(NsxNodeAgent)
  {
    var ds := Defaults(p, net);
    if SectionsExist(f, ds, |ds|) {
      forall i | 0 <= i < |ds| ensures f.HasSection(ds[i].sec) {
        SectionExists(f, ds, |ds|, i);
      }
      assert ds[1].sec == NsxV3 && ds[|ds| - 1].sec in {NsxV3, NsxNodeAgent};
      assert if p.Kubernetes? then ds[3].sec == Ha && ds[4].sec == NsxNodeAgent
             else ds[4].sec == Ha && ds[6].sec == NsxNodeAgent;
    } else if f.HasSection(NsxV3) && f.HasSection(Ha) && f.HasSection(NsxNodeAgent) {
      EverySection(f, ds, |ds|);
    }
  }

  lemma {:induction false} EverySection(f: File, ds: seq<Default>, n: nat)
    requires n <= |ds| && forall i :: 0 <= i < |ds| ==> f.HasSection(ds[i].sec)
    ensures SectionsExist(f, ds, n)
  {
    if n > 0 {
      EverySection(f, ds, n - 1);
    }
  }

  lemma DefaultMtuIsInteger()
    ensures IsInteger("1500")
  {
    var s := "1500";
    assert s[..3] == "150" && s[..3][..2] == "15" && s[..3][..2][..1] == "1";
    assert DigitsValue("1") == 1 && DigitsValue("15") == 15 && DigitsValue("150") == 150;
  }

  /** The checks of a configuration in terms of the submitted file: the defaults are taken into account, so SNAT is on
      unless it is given and not "True", and the MTU may be missing. */
  predicate Acceptable(p: Platform, net: Network, f: File) {
    && f.HasSection(NsxV3) && f.HasSection(Ha) && f.HasSection(NsxNodeAgent)
    && f.Value(Coe, ClusterName) != "" && f.Value(NsxV3, NsxApiManagers) != ""
    && (f.Value(Coe, EnableSnat) in ["", "True"] ==> f.Value(NsxV3, ExternalIpPools) != "")
    && (f.Value(NsxV3, Tier0Gateway) != "" || f.Value(NsxV3, TopTierRouter) != "")
    && (f.Value(NsxNodeAgent, Mtu) == "" || IsInteger(f.Value(NsxNodeAgent, Mtu)))
    && f.Value(DEFAULT, LogFile) == ""
    && (if p.Kubernetes? then f.Value(NsxV3, ContainerIpBlocks) != "" else net.valid)
  }

  /** A submitted configuration is accepted if and only if it passes these checks. */
  lemma AcceptedExactly(p: Platform, net: Network, f: File)
    ensures Submit(p, net, f).Some? <==> Acceptable(p, net, f)
  {
    var start := WithSection(f, Coe);
    AllSections(p, net, start);
    if SectionsExist(start, Defaults(p, net), |Defaults(p, net)|) {
      AcceptsFilled(p, net, f, FillAll(start, p, net));
    }
  }

  lemma AcceptsFilled(p: Platform, net: Network, f: File, h: File)
    requires var start := WithSection(f, Coe);
             SectionsExist(start, Defaults(p, net), |Defaults(p, net)|) && h == FillAll(start, p, net)
    requires f.HasSection(NsxV3) && f.HasSection(Ha) && f.HasSection(NsxNodeAgent)
    ensures Accepts(p, net, h) <==> Acceptable(p, net, f)
  {
    var start := WithSection(f, Coe);
    forall s, k ensures h.Lookup(s, k) == FilledTo(p, net, s, k, f.Lookup(s, k)) {
      FilledOptions(p, net, start, s, k);
    }
    AcceptsValues(p, net, f, h);
  }

  lemma AcceptsValues(p: Platform, net: Network, f: File, h: File)
    requires forall s, k :: h.Lookup(s, k) == FilledTo(p, net, s, k, f.Lookup(s, k))
    requires f.HasSection(NsxV3) && f.HasSection(Ha) && f.HasSection(NsxNodeAgent)
    ensures Accepts(p, net, h) <==> Acceptable(p, net, f)
  {
    DefaultMtuIsInteger();
    CoeValues(p, net, f, h);
    NsxValues(p, net, f, h);
    assert h.Lookup(DEFAULT, LogFile) == f.Lookup(DEFAULT, LogFile);
    assert h.Lookup(NsxNodeAgent, Mtu) == OrDefault(f.Lookup(NsxNodeAgent, Mtu), "1500");
  }

  lemma CoeValues(p: Platform, net: Network, f: File, h: File)
    requires forall s, k :: h.Lookup(s, k) == FilledTo(p, net, s, k, f.Lookup(s, k))
    ensures h.Value(Coe, ClusterName) == f.Value(Coe, ClusterName)
    ensures h.Value(Coe, EnableSnat) == "True" <==> f.Value(Coe, EnableSnat) in ["", "True"]
  {
    assert h.Lookup(Coe, ClusterName) == f.Lookup(Coe, ClusterName);
    assert h.Lookup(Coe, EnableSnat) == OrDefault(f.Lookup(Coe, EnableSnat), "True");
  }

  lemma NsxValues(p: Platform, net: Network, f: File, h: File)
    requires forall s, k :: h.Lookup(s, k) == FilledTo(p, net, s, k, f.Lookup(s, k))
    ensures h.Value(NsxV3, NsxApiManagers) == f.Value(NsxV3, NsxApiManagers)
    ensures h.Value(NsxV3, ExternalIpPools) == f.Value(NsxV3, ExternalIpPools)
    ensures h.Value(NsxV3, Tier0Gateway) == f.Value(NsxV3, Tier0Gateway)
    ensures h.Value(NsxV3, TopTierRouter) == f.Value(NsxV3, TopTierRouter)
    ensures p.Kubernetes? ==> h.Value(NsxV3, ContainerIpBlocks) == f.Value(NsxV3, ContainerIpBlocks)
  {
    assert h.Lookup(NsxV3, NsxApiManagers) == f.Lookup(NsxV3, NsxApiManagers);
    assert h.Lookup(NsxV3, ExternalIpPools) == f.Lookup(NsxV3, ExternalIpPools);
    assert h.Lookup(NsxV3, Tier0Gateway) == f.Lookup(NsxV3, Tier0Gateway);
    assert h.Lookup(NsxV3, TopTierRouter) == f.Lookup(NsxV3, TopTierRouter);
    assert p.Kubernetes? ==> h.Lookup(NsxV3, ContainerIpBlocks) == f.Lookup(NsxV3, ContainerIpBlocks);
  }

  lemma NothingLeftToClean(h: File)
    ensures !NeedsCleaning(Clean(h))
  {
    var g := Clean(h);
    forall k ensures k !in g.Contents(Cf) {
      CleanAt(h, Cf, k);
      assert g.Lookup(Cf, k).None?;
    }
    forall s, k ensures !Dropped(g, s, k) { CleanAt(h, s, k); }
  }

  lemma {:induction false} CleanKeepsSections(p: Platform, net: Network, h: File, n: nat)
    requires n <= |Defaults(p, net)|
    requires SectionsExist(h, Defaults(p, net), n)
    ensures SectionsExist(Clean(h), Defaults(p, net), n)
  {
    if n > 0 {
      CleanKeepsSections(p, net, h, n - 1);
      DefaultsSupported(p, net, n - 1);
      var d := Defaults(p, net)[n - 1];
      CleanAt(h, d.sec, d.key);
    }
  }

  lemma {:induction false} SectionsExistCongruent(f: File, g: File, ds: seq<Default>, n: nat)
    requires n <= |ds| && f.order == g.order
    ensures SectionsExist(f, ds, n) == SectionsExist(g, ds, n)
  {
    if n > 0 {
      SectionsExistCongruent(f, g, ds, n - 1);
      SameSections(f, g, ds[n - 1].sec);
    }
  }

  lemma SupportedOption(h: File, s: Section, k: Key)
    requires s != Cf && !Unsupported(s, k)
    ensures Clean(h).Value(s, k) == h.Value(s, k)
  {
    CleanAt(h, s, k);
    assert Clean(h).Lookup(s, k) == h.Lookup(s, k);
  }

  /** Cleaning never touches an option that validation looks at. */
  lemma CleanKeepsAcceptance(p: Platform, net: Network, h: File)
    ensures Accepts(p, net, Clean(h)) == Accepts(p, net, h)
  {
    CleanKeepsCoe(h);
    CleanKeepsNsxV3(h);
    SupportedOption(h, NsxNodeAgent, Mtu);
    SupportedOption(h, DEFAULT, LogFile);
    SameAcceptance(p, net, h, Clean(h));
  }

  lemma SameAcceptance(p: Platform, net: Network, f: File, g: File)
    requires f.Value(Coe, ClusterName) == g.Value(Coe, ClusterName)
    requires f.Value(Coe, EnableSnat) == g.Value(Coe, EnableSnat)
    requires forall k :: ValidatedNsxV3Key(k) ==> f.Value(NsxV3, k) == g.Value(NsxV3, k)
    requires f.Value(NsxNodeAgent, Mtu) == g.Value(NsxNodeAgent, Mtu)
    requires f.Value(DEFAULT, LogFile) == g.Value(DEFAULT, LogFile)
    ensures Accepts(p, net, f) == Accepts(p, net, g)
  {
  }

  lemma CleanKeepsCoe(h: File)
    ensures forall k :: k == ClusterName || k == EnableSnat ==> Clean(h).Value(Coe, k) == h.Value(Coe, k)
  {
    SupportedOption(h, Coe, ClusterName);
    SupportedOption(h, Coe, EnableSnat);
  }

  lemma CleanKeepsNsxV3(h: File)
    ensures forall k :: ValidatedNsxV3Key(k) ==> Clean(h).Value(NsxV3, k) == h.Value(NsxV3, k)
  {
    forall k | ValidatedNsxV3Key(k) ensures Clean(h).Value(NsxV3, k) == h.Value(NsxV3, k) {
      SupportedOption(h, NsxV3, k);
    }
  }

  predicate ValidatedNsxV3Key(k: Key) {
    k.NsxApiManagers? || k.ExternalIpPools? || k.ContainerIpBlocks? || k.Tier0Gateway? || k.TopTierRouter?
  }

  lemma RefillUnchanged(p: Platform, net: Network, f: File)
    requires Submit(p, net, f).Some?
    ensures FillAll(Submit(p, net, f).value, p, net) == Submit(p, net, f).value
  {
    var g, ds := Submit(p, net, f).value, Defaults(p, net);
    SubmittedSections(p, net, f);
    DefaultsDistinct(p, net);
    forall i | 0 <= i < |ds|
      ensures FilledValue(ds[i], g.Lookup(ds[i].sec, ds[i].key)) == g.Lookup(ds[i].sec, ds[i].key)
    {
      SubmittedTarget(p, net, f, i);
    }
    Refill(g, ds);
  }

  /** Filling a file that already follows the rule for every listed option changes nothing. */
  lemma Refill(g: File, ds: seq<Default>)
    requires DistinctTargets(ds) && SectionsExist(g, ds, |ds|)
    requires forall i :: 0 <= i < |ds| ==>
               FilledValue(ds[i], g.Lookup(ds[i].sec, ds[i].key)) == g.Lookup(ds[i].sec, ds[i].key)
    ensures FillUpTo(g, ds, |ds|) == g
  {
    forall s, k ensures FillUpTo(g, ds, |ds|).Lookup(s, k) == g.Lookup(s, k) {
      if i :| 0 <= i < |ds| && Hits(ds[i], s, k) {
        SectionExists(g, ds, |ds|, i);
        TargetedOption(g, ds, |ds|, i);
      } else {
        UntargetedOption(g, ds, |ds|, s, k);
      }
    }
    SameFile(FillUpTo(g, ds, |ds|), g);
  }

  lemma SubmittedSections(p: Platform, net: Network, f: File)
    requires Submit(p, net, f).Some?
    ensures SectionsExist(Submit(p, net, f).value, Defaults(p, net), |Defaults(p, net)|)
  {
    var ds := Defaults(p, net);
    AcceptedHasCoe(p, net, f);
    SectionsExistCongruent(f, FillAll(f, p, net), ds, |ds|);
    CleanKeepsSections(p, net, FillAll(f, p, net), |ds|);
  }

  /** Submitting an accepted configuration again changes nothing, not even its sections. */
  lemma SubmitIdempotent(p: Platform, net: Network, f: File)
    requires Submit(p, net, f).Some?
    ensures Submit(p, net, Submit(p, net, f).value) == Submit(p, net, f)
  {
    AcceptedHasCoe(p, net, f);
    SubmittedSections(p, net, f);
    SectionExists(Submit(p, net, f).value, Defaults(p, net), |Defaults(p, net)|, 0);
    RefillUnchanged(p, net, f);
    CleanKeepsAcceptance(p, net, FillAll(f, p, net));
    NothingLeftToClean(FillAll(f, p, net));
  }

  // ---------------------------------------------------------------- certificate paths

  predicate NonEmpty(entry: Option<string>) { entry.Some? && entry.value != "" }

  const NSX_CERT := Default(NsxV3, NsxApiCertFile, "/etc/nsx-ujo/nsx-cert/tls.crt", true)
  const NSX_KEY := Default(NsxV3, NsxApiPrivateKeyFile, "/etc/nsx-ujo/nsx-cert/tls.key", true)
  const NSX_CA := Default(NsxV3, CaFile, "/etc/nsx-ujo/nsx-cert/tls.ca", true)
  const LB_CERT := Default(NsxV3, LbDefaultCertPath, "/etc/nsx-ujo/lb-cert/tls.crt", true)
  const LB_KEY := Default(NsxV3, LbPrivKeyPath, "/etc/nsx-ujo/lb-cert/tls.key", true)

  function FillIf(f: File, due: bool, d: Default): (g: File)
    ensures g.order == f.order
  {
    if due then Fill(f, d) else f
  }

  function FillNsxAuth(f: File, s: Secret): (g: File)
    ensures g.order == f.order
  {
    FillIf(FillIf(FillIf(f, NonEmpty(s.crt), NSX_CERT), NonEmpty(s.key), NSX_KEY), NonEmpty(s.ca), NSX_CA)
  }

  function FillLbCert(f: File, s: Secret): (g: File)
    ensures g.order == f.order
  {
    FillIf(FillIf(f, NonEmpty(s.crt), LB_CERT), NonEmpty(s.key), LB_KEY)
  }

  /** What a secret makes of an option with value `v`. */
  ghost function WithNsxPath(secret: Secret, s: Section, k: Key, v: Option<string>): Option<string> {
    if Hits(NSX_CERT, s, k) && NonEmpty(secret.crt) then Some(NSX_CERT.val)
    else if Hits(NSX_KEY, s, k) && NonEmpty(secret.key) then Some(NSX_KEY.val)
    else if Hits(NSX_CA, s, k) && NonEmpty(secret.ca) then Some(NSX_CA.val)
    else v
  }

  ghost function WithLbPath(secret: Secret, s: Section, k: Key, v: Option<string>): Option<string> {
    if Hits(LB_CERT, s, k) && NonEmpty(secret.crt) then Some(LB_CERT.val)
    else if Hits(LB_KEY, s, k) && NonEmpty(secret.key) then Some(LB_KEY.val)
    else v
  }

  /** Each non-empty nsx-secret entry forces its own path option; nothing else changes. */
  lemma NsxAuthOptions(f: File, secret: Secret, s: Section, k: Key)
    requires f.HasSection(NsxV3)
    ensures FillNsxAuth(f, secret).Lookup(s, k) == WithNsxPath(secret, s, k, f.Lookup(s, k))
  {
    PathsForced(f, NonEmpty(secret.crt), NSX_CERT, NonEmpty(secret.key), NSX_KEY, NonEmpty(secret.ca), NSX_CA, s, k);
  }

  /** Three forced defaults for different options do not disturb each other. */
  lemma PathsForced(f: File, b1: bool, d1: Default, b2: bool, d2: Default, b3: bool, d3: Default, s: Section, k: Key)
    requires d1.force && d2.force && d3.force
    requires f.HasSection(d1.sec) && f.HasSection(d2.sec) && f.HasSection(d3.sec)
    requires d1.key != d2.key && d2.key != d3.key && d1.key != d3.key
    ensures FillIf(FillIf(FillIf(f, b1, d1), b2, d2), b3, d3).Lookup(s, k) ==
            if Hits(d1, s, k) && b1 then Some(d1.val)
            else if Hits(d2, s, k) && b2 then Some(d2.val)
            else if Hits(d3, s, k) && b3 then Some(d3.val)
            else f.Lookup(s, k)
  {
    var b := FillIf(FillIf(f, b1, d1), b2, d2);
    PairForced(f, b1, d1, b2, d2, s, k);
    SameSections(f, b, d3.sec);
    FillIfAt(b, b3, d3, s, k);
  }

  lemma PairForced(f: File, b1: bool, d1: Default, b2: bool, d2: Default, s: Section, k: Key)
    requires d1.force && d2.force && d1.key != d2.key
    requires f.HasSection(d1.sec) && f.HasSection(d2.sec)
    ensures FillIf(FillIf(f, b1, d1), b2, d2).Lookup(s, k) ==
            if Hits(d1, s, k) && b1 then Some(d1.val)
            else if Hits(d2, s, k) && b2 then Some(d2.val)
            else f.Lookup(s, k)
  {
    var a := FillIf(f, b1, d1);
    SameSections(f, a, d2.sec);
    FillIfAt(f, b1, d1, s, k);
    FillIfAt(a, b2, d2, s, k);
  }

  /** Likewise for lb-secret. */
  lemma LbCertOptions(f: File, secret: Secret, s: Section, k: Key)
    requires f.HasSection(NsxV3)
    ensures FillLbCert(f, secret).Lookup(s, k) == WithLbPath(secret, s, k, f.Lookup(s, k))
  {
    PairForced(f, NonEmpty(secret.crt), LB_CERT, NonEmpty(secret.key), LB_KEY, s, k);
  }

  lemma FillIfAt(f: File, due: bool, d: Default, s: Section, k: Key)
    requires d.force
    ensures FillIf(f, due, d).Lookup(s, k) ==
            if due && f.HasSection(d.sec) && Hits(d, s, k) then Some(d.val) else f.Lookup(s, k)
  {
    FillAt(f, d, s, k);
  }

  /** `FillNsxAuthCfg`; fails when a path has no nsx_v3 section to go to. */
  method FillNsxAuthCfg(cfg: Config, s: Secret) returns (ok: bool)
    modifies cfg
    ensures cfg.file == FillNsxAuth(old(cfg.file), s)
    ensures ok == (old(cfg.file).HasSection(NsxV3) || !(NonEmpty(s.crt) || NonEmpty(s.key) || NonEmpty(s.ca)))
  {
    ok := true;
    ghost var f := cfg.file;
    if NonEmpty(s.crt) {
      var filled := FillDefault(cfg, NsxV3, NsxApiCertFile, "/etc/nsx-ujo/nsx-cert/tls.crt", true);
      ok := ok && filled;
    }
    SameSections(f, cfg.file, NsxV3);
    if NonEmpty(s.key) {
      var filled := FillDefault(cfg, NsxV3, NsxApiPrivateKeyFile, "/etc/nsx-ujo/nsx-cert/tls.key", true);
      ok := ok && filled;
    }
    SameSections(f, cfg.file, NsxV3);
    if NonEmpty(s.ca) {
      var filled := FillDefault(cfg, NsxV3, CaFile, "/etc/nsx-ujo/nsx-cert/tls.ca", true);
      ok := ok && filled;
    }
  }

  /** `FillLbCertCfg` */
  method FillLbCertCfg(cfg: Config, s: Secret) returns (ok: bool)
    modifies cfg
    ensures cfg.file == FillLbCert(old(cfg.file), s)
    ensures ok == (old(cfg.file).HasSection(NsxV3) || !(NonEmpty(s.crt) || NonEmpty(s.key)))
  {
    ok := true;
    ghost var f := cfg.file;
    if NonEmpty(s.crt) {
      var filled := FillDefault(cfg, NsxV3, LbDefaultCertPath, "/etc/nsx-ujo/lb-cert/tls.crt", true);
      ok := ok && filled;
    }
    SameSections(f, cfg.file, NsxV3);
    if NonEmpty(s.key) {
      var filled := FillDefault(cfg, NsxV3, LbPrivKeyPath, "/etc/nsx-ujo/lb-cert/tls.key", true);
      ok := ok && filled;
    }
  }

  /** The configuration that is compared and rendered, or `None` when a step reports an error. */
  ghost function Prepared(p: Platform, net: Network, nsx: Option<Secret>, lb: Option<Secret>, f: File): Option<File> {
    var g := Submit(p, net, f);
    if g.None? then None
    else
      var h := if nsx.Some? then FillNsxAuth(g.value, nsx.value) else g.value;
      Some(if lb.Some? then FillLbCert(h, lb.value) else h)
  }

  ghost function IfGiven(s: Option<Secret>, e: EntryName, path: string): Option<string> {
    if Entry(s, e) != "" then Some(path) else None
  }

  /** The path an option takes from nsx-secret, if there is one. */
  ghost function NsxPath(nsx: Option<Secret>, s: Section, k: Key): Option<string> {
    if !s.NsxV3? then None
    else if k.NsxApiCertFile? then IfGiven(nsx, TlsCrt, "/etc/nsx-ujo/nsx-cert/tls.crt")
    else if k.NsxApiPrivateKeyFile? then IfGiven(nsx, TlsKey, "/etc/nsx-ujo/nsx-cert/tls.key")
    else if k.CaFile? then IfGiven(nsx, TlsCa, "/etc/nsx-ujo/nsx-cert/tls.ca")
    else None
  }

  /** The path an option takes from lb-secret, if there is one. */
  ghost function LbPath(lb: Option<Secret>, s: Section, k: Key): Option<string> {
    if !s.NsxV3? then None
    else if k.LbDefaultCertPath? then IfGiven(lb, TlsCrt, "/etc/nsx-ujo/lb-cert/tls.crt")
    else if k.LbPrivKeyPath? then IfGiven(lb, TlsKey, "/etc/nsx-ujo/lb-cert/tls.key")
    else None
  }

  ghost function OrElse(a: Option<string>, b: Option<string>): Option<string> { if a.Some? then a else b }

  /** Every option of the configuration that is compared and rendered: each of the five path options takes its path if
      and only if the matching entry of nsx-secret or lb-secret is there and not empty, and everything else is as
      accepted.  A secret never makes an accepted configuration fail. */
  lemma PreparedOptions(p: Platform, net: Network, nsx: Option<Secret>, lb: Option<Secret>, f: File,
                        s: Section, k: Key)
    ensures Prepared(p, net, nsx, lb, f).Some? <==> Submit(p, net, f).Some?
    ensures Submit(p, net, f).Some? ==>
              Prepared(p, net, nsx, lb, f).value.Lookup(s, k) ==
              OrElse(LbPath(lb, s, k), OrElse(NsxPath(nsx, s, k), Submit(p, net, f).value.Lookup(s, k)))
  {
    if Submit(p, net, f).Some? {
      AcceptedHasNsx(p, net, FillAll(WithSection(f, Coe), p, net));
      PathsTaken(Submit(p, net, f).value, nsx, lb, s, k);
    }
  }

  /** What a submitted option becomes: a path, nothing, or what filling the defaults makes of it. */
  ghost function PreparedTo(p: Platform, net: Network, nsx: Option<Secret>, lb: Option<Secret>, f: File,
                            s: Section, k: Key): Option<string>
  {
    OrElse(LbPath(lb, s, k),
           OrElse(NsxPath(nsx, s, k),
                  if s == Cf || (Unsupported(s, k) && f.Value(s, k) != "") then None
                  else FilledTo(p, net, s, k, f.Lookup(s, k))))
  }

  /** Exactly which submitted configurations are rendered, and every option of them. */
  lemma PreparedExactly(p: Platform, net: Network, nsx: Option<Secret>, lb: Option<Secret>, f: File,
                        s: Section, k: Key)
    ensures Prepared(p, net, nsx, lb, f).Some? <==> Acceptable(p, net, f)
    ensures Acceptable(p, net, f) ==>
              Prepared(p, net, nsx, lb, f).value.Lookup(s, k) == PreparedTo(p, net, nsx, lb, f, s, k)
  {
    AcceptedExactly(p, net, f);
    PreparedOptions(p, net, nsx, lb, f, s, k);
    if Submit(p, net, f).Some? {
      SubmittedValues(p, net, f, s, k);
    }
  }

  lemma PathsTaken(g: File, nsx: Option<Secret>, lb: Option<Secret>, s: Section, k: Key)
    requires g.HasSection(NsxV3)
    ensures var h := if nsx.Some? then FillNsxAuth(g, nsx.value) else g;
            (if lb.Some? then FillLbCert(h, lb.value) else h).Lookup(s, k) ==
            OrElse(LbPath(lb, s, k), OrElse(NsxPath(nsx, s, k), g.Lookup(s, k)))
  {
    var h := if nsx.Some? then FillNsxAuth(g, nsx.value) else g;
    NsxPaths(g, nsx, s, k);
    SameSections(g, h, NsxV3);
    LbPaths(h, lb, s, k);
  }

  lemma NsxPaths(g: File, nsx: Option<Secret>, s: Section, k: Key)
    requires g.HasSection(NsxV3)
    ensures (if nsx.Some? then FillNsxAuth(g, nsx.value) else g).Lookup(s, k) ==
            OrElse(NsxPath(nsx, s, k), g.Lookup(s, k))
  {
    if nsx.Some? {
      NsxAuthOptions(g, nsx.value, s, k);
      NsxPathIs(nsx.value, s, k, g.Lookup(s, k));
    }
  }

  lemma LbPaths(g: File, lb: Option<Secret>, s: Section, k: Key)
    requires g.HasSection(NsxV3)
    ensures (if lb.Some? then FillLbCert(g, lb.value) else g).Lookup(s, k) ==
            OrElse(LbPath(lb, s, k), g.Lookup(s, k))
  {
    if lb.Some? {
      LbCertOptions(g, lb.value, s, k);
      LbPathIs(lb.value, s, k, g.Lookup(s, k));
    }
  }

  lemma NsxTargets(s: Section, k: Key)
    ensures Hits(NSX_CERT, s, k) <==> s.NsxV3? && k.NsxApiCertFile?
    ensures Hits(NSX_KEY, s, k) <==> s.NsxV3? && k.NsxApiPrivateKeyFile?
    ensures Hits(NSX_CA, s, k) <==> s.NsxV3? && k.CaFile?
  {
  }

  lemma LbTargets(s: Section, k: Key)
    ensures Hits(LB_CERT, s, k) <==> s.NsxV3? && k.LbDefaultCertPath?
    ensures Hits(LB_KEY, s, k) <==> s.NsxV3? && k.LbPrivKeyPath?
  {
  }

  lemma NsxPathIs(secret: Secret, s: Section, k: Key, v: Option<string>)
    ensures WithNsxPath(secret, s, k, v) == OrElse(NsxPath(Some(secret), s, k), v)
  {
    NsxTargets(s, k);
    if Hits(NSX_CERT, s, k) {
      CertPathIs(secret, v);
    } else if Hits(NSX_KEY, s, k) {
      KeyPathIs(secret, v);
    } else if Hits(NSX_CA, s, k) {
      CaPathIs(secret, v);
    } else {
      NoNsxPath(secret, s, k);
    }
  }

  lemma CertPathIs(secret: Secret, v: Option<string>)
    ensures WithNsxPath(secret, NsxV3, NsxApiCertFile, v) ==
            OrElse(NsxPath(Some(secret), NsxV3, NsxApiCertFile), v)
  {
  }

  lemma KeyPathIs(secret: Secret, v: Option<string>)
    ensures WithNsxPath(secret, NsxV3, NsxApiPrivateKeyFile, v) ==
            OrElse(NsxPath(Some(secret), NsxV3, NsxApiPrivateKeyFile), v)
  {
  }

  lemma CaPathIs(secret: Secret, v: Option<string>)
    ensures WithNsxPath(secret, NsxV3, CaFile, v) == OrElse(NsxPath(Some(secret), NsxV3, CaFile), v)
  {
  }

  lemma NoNsxPath(secret: Secret, s: Section, k: Key)
    requires s.NsxV3? ==> !k.NsxApiCertFile? && !k.NsxApiPrivateKeyFile? && !k.CaFile?
    ensures NsxPath(Some(secret), s, k).None?
  {
  }

  lemma LbPathIs(secret: Secret, s: Section, k: Key, v: Option<string>)
    ensures WithLbPath(secret, s, k, v) == OrElse(LbPath(Some(secret), s, k), v)
  {
    LbTargets(s, k);
  }

  /** FillDefaults followed by Validate */
  method SubmitConfig(p: Platform, net: Network, f: File) returns (r: Option<File>)
    ensures r == Submit(p, net, f)
  {
    var cfg := new Config(f);
    var ok;
    if p.OpenShift? {
      ok := FillDefaultsOc(cfg, net);
    } else {
      ok := FillDefaultsK8s(cfg, net);
    }
    if !ok || !Accepts(p, net, cfg.file) {
      return None;
    }
    var cleaned := ValidateUnSupportedOptions(cfg.file);
    return Some(cleaned);
  }

  /** Everything Reconcile does to the submitted configuration before rendering it. */
  method Prepare(p: Platform, net: Network, nsx: Option<Secret>, lb: Option<Secret>, f: File) returns (r: Option<File>)
    ensures r == Prepared(p, net, nsx, lb, f)
  {
    var submitted := SubmitConfig(p, net, f);
    if submitted.None? {
      return None;
    }
    AcceptedHasNsx(p, net, FillAll(WithSection(f, Coe), p, net));
    var cfg := new Config(submitted.value);
    var ok := true;
    if nsx.Some? {
      ok := FillNsxAuthCfg(cfg, nsx.value);
    }
    SameSections(submitted.value, cfg.file, NsxV3);
    if lb.Some? {
      var filled := FillLbCertCfg(cfg, lb.value);
      ok := ok && filled;
    }
    assert ok;
    return Some(cfg.file);
  }

  /** The certificate steps cannot fail on an accepted configuration. */
  lemma AcceptedHasNsx(p: Platform, net: Network, h: File)
    requires Accepts(p, net, h)
    ensures Clean(h).HasSection(NsxV3)
  {
    CleanAt(h, NsxV3, NsxApiManagers);
  }
}
