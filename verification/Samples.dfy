/** A family of valid configurations for concrete runs. */
module Samples {
  import opened Common
  import opened Names
  import opened Ini
  import opened Pipeline
  import opened Reconciler

  const NET := Network([], true)

  /** Cluster name, NSX managers, API server address and l4_lb_auto_scaling. */
  datatype Params = Params(cluster: string, managers: string, host: string, scaling: string)

  function CoeOptions(x: Params): Options {
    map[Adaptor := "kubernetes", EnableSnat := "no", ClusterName := x.cluster]
  }

  function NsxOptions(x: Params): Options {
    map[PolicyNsxapi := "True", NsxApiManagers := x.managers, ContainerIpBlocks := "b", Tier0Gateway := "t",
        L4LbAutoScaling := x.scaling]
  }

  /** A Kubernetes configuration with these values. */
  function Sample(x: Params): File {
    IniFile([DEFAULT, Coe, NsxV3, Ha, NsxNodeAgent, Section.K8s], map[
      DEFAULT := map[],
      Coe := CoeOptions(x),
      NsxV3 := NsxOptions(x),
      Ha := map[Enable := "True"],
      NsxNodeAgent := map[Mtu := "1"],
      Section.K8s := map[ApiserverHostIp := x.host]])
  }

  /** A file with the contents of a sample. */
  ghost predicate IsSample(f: File, x: Params) {
    && f.Contents(Coe) == CoeOptions(x) && f.Contents(NsxV3) == NsxOptions(x)
    && f.Contents(Ha) == map[Enable := "True"] && f.Contents(NsxNodeAgent) == map[Mtu := "1"]
    && f.Contents(Section.K8s) == map[ApiserverHostIp := x.host]
    && f.HasSection(Coe) && f.HasSection(NsxV3) && f.HasSection(Ha) && f.HasSection(NsxNodeAgent)
    && f.HasSection(Section.K8s)
    && f.Contents(DEFAULT) == f.Contents(Cf) == f.Contents(Vc) == f.Contents(NsxKubeProxy) == map[]
  }

  lemma SampleIs(x: Params)
    ensures IsSample(Sample(x), x)
  {
    SampleBody(Sample(x), CoeOptions(x), NsxOptions(x), map[Enable := "True"], map[Mtu := "1"],
               map[ApiserverHostIp := x.host]);
  }

  lemma SampleBody(f: File, coe: Options, nsx: Options, ha: Options, agent: Options, k8s: Options)
    requires f.body == map[DEFAULT := map[], Coe := coe, NsxV3 := nsx, Ha := ha, NsxNodeAgent := agent,
                           Section.K8s := k8s]
    ensures f.HasSection(Coe) && f.HasSection(NsxV3) && f.HasSection(Ha) && f.HasSection(NsxNodeAgent)
    ensures f.HasSection(Section.K8s)
    ensures f.Contents(Coe) == coe && f.Contents(NsxV3) == nsx && f.Contents(Ha) == ha
    ensures f.Contents(NsxNodeAgent) == agent && f.Contents(Section.K8s) == k8s
    ensures f.Contents(DEFAULT) == f.Contents(Cf) == f.Contents(Vc) == f.Contents(NsxKubeProxy) == map[]
  {
  }

  lemma SampleFilled(f: File, x: Params)
    requires IsSample(f, x)
    ensures SectionsExist(f, Defaults(Kubernetes, NET), 5)
    ensures FillAll(f, Kubernetes, NET) == f
  {
    var ds := Defaults(Kubernetes, NET);
    SampleFilling(f, ds);
    DefaultsDistinct(Kubernetes, NET);
    SampleFollows(f, ds);
    Refill(f, ds);
  }

  lemma SampleFilling(f: File, ds: seq<Default>)
    requires ds == Defaults(Kubernetes, NET)
    requires f.HasSection(Coe) && f.HasSection(NsxV3) && f.HasSection(Ha) && f.HasSection(NsxNodeAgent)
    ensures SectionsExist(f, ds, 5)
  {
    assert SectionsExist(f, ds, 0);
    assert SectionsExist(f, ds, 1);
    assert SectionsExist(f, ds, 2);
    assert SectionsExist(f, ds, 3);
    assert SectionsExist(f, ds, 4);
  }

  lemma SampleFollows(f: File, ds: seq<Default>)
    requires ds == Defaults(Kubernetes, NET)
    requires f.Lookup(Coe, Adaptor) == Some("kubernetes") && f.Lookup(NsxV3, PolicyNsxapi) == Some("True")
    requires f.Lookup(Coe, EnableSnat) == Some("no") && f.Lookup(Ha, Enable) == Some("True")
    requires f.Lookup(NsxNodeAgent, Mtu) == Some("1")
    ensures forall i :: 0 <= i < |ds| ==>
              FilledValue(ds[i], f.Lookup(ds[i].sec, ds[i].key)) == f.Lookup(ds[i].sec, ds[i].key)
  {
  }

  lemma SampleAccepted(f: File, x: Params)
    requires IsSample(f, x) && x.cluster != "" && x.managers != ""
    ensures Accepts(Kubernetes, NET, f)
  {
    assert DigitsValue("") == 0;
    assert "1"[..0] == "";
    assert DigitsValue("1") == 1;
  }

  lemma SampleClean(f: File, x: Params)
    requires IsSample(f, x)
    ensures Clean(f) == f
  {
    forall s, k ensures !Dropped(f, s, k) {
      SampleSupported(f, x, s, k);
    }
    NothingDropped(f);
  }

  lemma NothingDropped(f: File)
    requires f.Contents(Cf) == map[] && forall s, k :: !Dropped(f, s, k)
    ensures Clean(f) == f
  {
  }

  lemma SampleSupported(f: File, x: Params, s: Section, k: Key)
    requires IsSample(f, x)
    ensures Unsupported(s, k) ==> f.Value(s, k) == ""
  {
    match s
    case NsxV3 => SampleNsxV3(x, k);
    case Coe => SampleCoe(x, k);
    case K8s => assert UnsupportedK8s(k) ==> k != ApiserverHostIp;
    case _ =>
  }

  lemma SampleNsxV3(x: Params, k: Key)
    ensures UnsupportedNsxV3(k) ==> k !in NsxOptions(x)
  {
  }

  lemma SampleCoe(x: Params, k: Key)
    ensures k.NodeType? ==> k !in CoeOptions(x)
  {
  }

  /** The sample is submitted and prepared unchanged. */
  lemma SamplePrepared(f: File, x: Params)
    requires IsSample(f, x) && x.cluster != "" && x.managers != ""
    ensures Prepared(Kubernetes, NET, None, None, f) == Some(f)
  {
    SampleFilled(f, x);
    SampleAccepted(f, x);
    SampleClean(f, x);
  }

  const START := State(None, Cluster(None, None, None, None, None, None, None))

  const PLAIN := Install(1, None, None, None)

  function Submitting(f: File, image: string, install: Install): Inputs {
    Inputs(Kubernetes, image, Some(install), Some(Text(f, "")), None, None, None)
  }

  lemma SampleInstance(x: Params, image: string, install: Install)
    requires x.cluster != "" && x.managers != ""
    ensures var f := Sample(x);
            && Instance(Submitting(f, image, install)) == Some(Text(f, ""))
            && ClampedReplicas(f, 1) == Some(1)
            && IsSample(f, x)
  {
    SampleIs(x);
    SamplePrepared(Sample(x), x);
    SampleReplicas(Sample(x));
  }

  lemma SampleReplicas(f: File)
    requires f.Contents(Ha) == map[Enable := "True"]
    ensures ClampedReplicas(f, 1) == Some(1)
  {
    assert ParseBool("True") == Some(true);
  }
}
