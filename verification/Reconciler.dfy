/** The ConfigMap controller: one Reconcile as a function of the process memory, the cluster,
    the submitted objects and the client calls that fail. */
module Reconciler {
  import opened Common
  import opened Names
  import opened Ini
  import opened ConfigDiff
  import opened Projection
  import opened Pipeline

  type Selector = map<string, string>
  type Tolerations = seq<string>

  /** The ncp-install resource.  A list that is not there is `None`; one that is there may be empty. */
  datatype Install = Install(
    replicas: int,
    selector: Option<Selector>,
    ncpTolerations: Option<Tolerations>,
    agentTolerations: Option<Tolerations>)

  /** What a Reconcile reads from the operator's namespace and environment; `None` is not found. */
  datatype Inputs = Inputs(
    platform: Platform,
    image: string,
    install: Option<Install>,
    config: Option<Document>,
    network: Option<Network>,
    nsxSecret: Option<Secret>,
    lbSecret: Option<Secret>)

  datatype Deployment = Deployment(image: string, replicas: int, selector: Selector, tolerations: Tolerations)

  /** The rendered objects the controller reads back.  A workload does not keep whether an empty list was there. */
  datatype Cluster = Cluster(
    ncpConfig: Option<Document>,
    agentConfig: Option<Document>,
    nsxSecret: Option<Secret>,
    lbSecret: Option<Secret>,
    deployment: Option<Deployment>,
    bootstrapDs: Option<Tolerations>,
    agentDs: Option<Tolerations>)

  /** Process memory and cluster. */
  datatype State = State(applied: Option<Document>, cluster: Cluster)

  /** The client calls of one Reconcile that fail with something other than not-found.
      `applyAt` is the rendered object whose owner reference, annotation patch or Apply fails. */
  datatype Faults = Faults(
    inputs: bool,
    ncpConfig: bool,
    agentConfig: bool,
    nsxSecret: bool,
    lbSecret: bool,
    agentDs: bool,
    monitored: bool,
    deployment: bool,
    applyAt: Option<nat>,
    networkStatus: bool)

  const NO_FAULTS := Faults(false, false, false, false, false, false, false, false, None, false)

  datatype Outcome = Skipped | Failed | NoChange | Applied

  /** How far the apply loop got. */
  datatype Extent = NotStarted | PartWay | Complete

  datatype Step = Step(state: State, outcome: Outcome, extent: Extent)

  /** The pods of a workload: the file they found in their ConfigMap when they last started, and whether their template
      carries the annotation of a patch. */
  datatype Running = Running(file: Option<File>, stamped: bool)

  datatype Started = Started(ncp: Running, bootstrap: Running, agent: Running)

  // ---------------------------------------------------------------- rendering

  datatype Object =
    | NcpConfigObject(doc: Document)
    | AgentConfigObject(doc: Document)
    | NsxSecretObject(secret: Secret)
    | LbSecretObject(secret: Secret)
    | DeploymentObject(deployment: Deployment)
    | BootstrapObject(tolerations: Tolerations)
    | AgentObject(tolerations: Tolerations)
    | UnwatchedObject

  function OrEmpty(entry: Option<string>): string {
    if entry.Some? then entry.value else ""
  }

  function RenderedNsx(s: Option<Secret>): Secret {
    if s.None? then Secret(Some(""), Some(""), Some(""))
    else Secret(Some(OrEmpty(s.value.crt)), Some(OrEmpty(s.value.key)), Some(OrEmpty(s.value.ca)))
  }

  /** The lb-secret manifest has no tls.ca entry. */
  function RenderedLb(s: Option<Secret>): Secret {
    if s.None? then Secret(Some(""), Some(""), None)
    else Secret(Some(OrEmpty(s.value.crt)), Some(OrEmpty(s.value.key)), None)
  }

  /** Without HA at most one replica runs; `None` when ha.enable is not a boolean. */
  function ClampedReplicas(f: File, replicas: int): Option<int> {
    var ha := if f.Lookup(Ha, Enable).Some? then ParseBool(f.Value(Ha, Enable)) else Some(false);
    if ha.None? then None
    else if !ha.value && replicas > 1 then Some(1)
    else Some(replicas)
  }

  /** Without HA the replicas are cut down to one, and never raised; with HA they stay.  HA is off when ha.enable is
      missing or a false value, and an ha.enable that is no boolean is an error. */
  lemma ReplicasExactly(f: File, replicas: int)
    ensures var given, v, r := f.Lookup(Ha, Enable).Some?, f.Value(Ha, Enable), ClampedReplicas(f, replicas);
            && (given && v in ["1", "t", "T", "TRUE", "true", "True"] ==> r == Some(replicas))
            && (!given || v in ["0", "f", "F", "FALSE", "false", "False"] ==>
                r.Some? && r.value <= 1 && r.value <= replicas && (replicas <= 1 ==> r.value == replicas) &&
                (replicas > 1 ==> r.value == 1))
            && (r.None? <==> given && v !in ["1", "t", "T", "TRUE", "true", "True"] &&
                             v !in ["0", "f", "F", "FALSE", "false", "False"])
  {
  }

  function StoredSelector(s: Option<Selector>): Selector { if s.Some? then s.value else map[] }

  function StoredTolerations(t: Option<Tolerations>): Tolerations { if t.Some? then t.value else [] }

  /** An empty list reads back as one that is not there. */
  function ReadSelector(s: Selector): Option<Selector> { if s == map[] then None else Some(s) }

  function ReadTolerations(t: Tolerations): Option<Tolerations> { if t == [] then None else Some(t) }

  function RenderedDeployment(inp: Inputs, install: Install, replicas: int): Deployment {
    Deployment(if inp.image == "" then "nsx-ncp:latest" else inp.image, replicas,
               StoredSelector(install.selector), StoredTolerations(install.ncpTolerations))
  }

  /** The rendered objects in manifest order.  The first stands for the CRDs and RBAC objects; the OpenShift manifest
      ends with another CRD. */
  function RenderedObjects(ncp: Document, agent: Document, inp: Inputs, install: Install, replicas: int): seq<Object> {
    [ UnwatchedObject,
      NsxSecretObject(RenderedNsx(inp.nsxSecret)),
      LbSecretObject(RenderedLb(inp.lbSecret)),
      NcpConfigObject(ncp),
      DeploymentObject(RenderedDeployment(inp, install, replicas)),
      AgentConfigObject(agent),
      BootstrapObject(StoredTolerations(install.agentTolerations)),
      AgentObject(StoredTolerations(install.agentTolerations)) ] +
    if inp.platform.OpenShift? then [ UnwatchedObject ] else []
  }

  function NcpDocument(f: File): Document { Text(Project(f, NCP_SECTIONS), "") }

  function AgentDocument(f: File): Document { Text(Project(f, AGENT_SECTIONS), "") }

  function ApplyObject(c: Cluster, o: Object): Cluster {
    match o
    case NcpConfigObject(doc) => c.(ncpConfig := Some(doc))
    case AgentConfigObject(doc) => c.(agentConfig := Some(doc))
    case NsxSecretObject(s) => c.(nsxSecret := Some(s))
    case LbSecretObject(s) => c.(lbSecret := Some(s))
    case DeploymentObject(d) => c.(deployment := Some(d))
    case BootstrapObject(t) => c.(bootstrapDs := Some(t))
    case AgentObject(t) => c.(agentDs := Some(t))
    case UnwatchedObject => c
  }

  function ApplyUpTo(c: Cluster, objs: seq<Object>, n: nat): Cluster
    requires n <= |objs|
  {
    if n == 0 then c else ApplyObject(ApplyUpTo(c, objs, n - 1), objs[n - 1])
  }

  // ---------------------------------------------------------------- restarting pods

  function FileOf(doc: Option<Document>): Option<File> {
    if doc.Some? && doc.value.Text? then Some(doc.value.file) else None
  }

  /** The pod templates differ; the number of replicas is not part of it. */
  predicate TemplateDiffers(a: Deployment, b: Deployment) {
    a.image != b.image || a.selector != b.selector || a.tolerations != b.tolerations
  }

  /** Applying an object to `c` starts the pods of a workload that is new or whose template changes.  A patch gives the
      template a new annotation, and an apply without one takes an old annotation away. */
  function StartAfter(c: Cluster, st: Started, o: Object, patch: NeedChange): Started {
    match o
    case DeploymentObject(d) =>
      var new_ := c.deployment.None? || TemplateDiffers(c.deployment.value, d);
      st.(ncp := RunningAfter(st.ncp, new_, patch.ncp, c.ncpConfig))
    case BootstrapObject(t) =>
      st.(bootstrap := RunningAfter(st.bootstrap, c.bootstrapDs != Some(t), patch.bootstrap, c.agentConfig))
    case AgentObject(t) =>
      st.(agent := RunningAfter(st.agent, c.agentDs != Some(t), patch.agent, c.agentConfig))
    case _ => st
  }

  function RunningAfter(r: Running, new_: bool, patched: bool, config: Option<Document>): Running {
    if new_ || patched || r.stamped then Running(FileOf(config), patched) else r
  }

  function StartedUpTo(c: Cluster, st: Started, objs: seq<Object>, patch: NeedChange, n: nat): Started
    requires n <= |objs|
  {
    if n == 0 then st
    else StartAfter(ApplyUpTo(c, objs, n - 1), StartedUpTo(c, st, objs, patch, n - 1), objs[n - 1], patch)
  }

  /** Templates are only patched when there is an applied configuration. */
  function Patches(applied: Option<Document>, need: NeedChange): NeedChange {
    if applied.Some? then need else NOTHING
  }

  /** A changed secret restarts nsx-ncp too. */
  function WithSecrets(change: NeedChange, inp: Inputs, c: Cluster): NeedChange {
    change.(ncp := change.ncp || SecretsChanged(inp, c))
  }

  // ---------------------------------------------------------------- comparisons with the cluster

  predicate SecretNotEqual(a: Option<Secret>, b: Option<Secret>) {
    var x := if a.Some? then a.value else Secret(None, None, None);
    var y := if b.Some? then b.value else Secret(None, None, None);
    OrEmpty(x.crt) != OrEmpty(y.crt) || OrEmpty(x.key) != OrEmpty(y.key) || OrEmpty(x.ca) != OrEmpty(y.ca)
  }

  predicate SecretsChanged(inp: Inputs, c: Cluster) {
    SecretNotEqual(inp.nsxSecret, c.nsxSecret) || SecretNotEqual(inp.lbSecret, c.lbSecret)
  }

  predicate AgentDsChanged(install: Install, c: Cluster) {
    c.agentDs.None? || ReadTolerations(c.agentDs.value) != install.agentTolerations
  }

  predicate AnyMonitoredDeleted(c: Cluster) {
    c.agentDs.None? || c.bootstrapDs.None? || c.deployment.None?
  }

  predicate DeploymentChanged(inp: Inputs, install: Install, replicas: int, c: Cluster) {
    || c.deployment.None?
    || c.deployment.value.image != inp.image || c.deployment.value.replicas != replicas
    || ReadSelector(c.deployment.value.selector) != install.selector
    || ReadTolerations(c.deployment.value.tolerations) != install.ncpTolerations
  }

  /** Something calls for applying the rendered objects. */
  predicate ApplyDue(c: Cluster, inp: Inputs, install: Install, replicas: int, change: NeedChange) {
    || change != NOTHING || SecretsChanged(inp, c)
    || AgentDsChanged(install, c) || AnyMonitoredDeleted(c) || DeploymentChanged(inp, install, replicas, c)
  }

  /** A read that this Reconcile needs fails: each is only made when the ones before did not decide. */
  predicate ReadBlocked(c: Cluster, inp: Inputs, change: NeedChange, fl: Faults) {
    || (!change.ncp && (fl.nsxSecret || (fl.lbSecret && !SecretNotEqual(inp.nsxSecret, c.nsxSecret))))
    || fl.agentDs
    || (change == NOTHING && !SecretsChanged(inp, c) && (fl.monitored || (fl.deployment && !AnyMonitoredDeleted(c))))
  }

  /** The applied configuration, recovered from the two ConfigMaps when memory has none.  When one of
      them cannot be loaded the empty configuration is remembered and the Reconcile fails. */
  function AppliedBefore(s: State, fl: Faults): (Option<Document>, bool) {
    if s.applied.Some? then (s.applied, true)
    else if fl.ncpConfig || fl.agentConfig || s.cluster.ncpConfig.None? || s.cluster.agentConfig.None? then (None, true)
    else if s.cluster.ncpConfig.value.Malformed? || s.cluster.agentConfig.value.Malformed? then
      (Some(Text(EMPTY_FILE, "")), false)
    else (Some(Text(Recover(s.cluster.ncpConfig.value.file, s.cluster.agentConfig.value.file), "")), true)
  }

  function MtuOf(doc: Option<Document>): string {
    if doc.Some? && doc.value.Text? then doc.value.file.Value(NsxNodeAgent, Mtu) else ""
  }

  /** On OpenShift the network status is always written, on Kubernetes when the MTU changed. */
  predicate NetworkStatusDue(p: Platform, cur: Document, applied: Option<Document>) {
    p.OpenShift? || MtuOf(Some(cur)) != MtuOf(applied)
  }

  // ---------------------------------------------------------------- Reconcile

  function NetworkOf(inp: Inputs): Option<Network> {
    if inp.platform.Kubernetes? then Some(Network([], true)) else inp.network
  }

  /** The prepared configuration of some inputs. */
  ghost function Instance(inp: Inputs): Option<Document> {
    if inp.config.None? || inp.config.value.Malformed? || NetworkOf(inp).None? then None
    else
      var f := Prepared(inp.platform, NetworkOf(inp).value, inp.nsxSecret, inp.lbSecret, inp.config.value.file);
      if f.None? then None else Some(Text(f.value, inp.config.value.layout))
  }

  /** Which inputs give a configuration. */
  lemma InstanceExactly(inp: Inputs)
    ensures Instance(inp).Some? <==>
              && inp.config.Some? && inp.config.value.Text? && (inp.platform.OpenShift? ==> inp.network.Some?)
              && var net := if inp.platform.OpenShift? then inp.network.value else Network([], true);
              Acceptable(inp.platform, net, inp.config.value.file)
  {
    if inp.config.Some? && inp.config.value.Text? && NetworkOf(inp).Some? {
      var f, net := inp.config.value.file, NetworkOf(inp).value;
      PreparedExactly(inp.platform, net, inp.nsxSecret, inp.lbSecret, f, Coe, Adaptor);
    }
  }

  /** Every option of it; the layout stays. */
  lemma InstanceOption(inp: Inputs, doc: Document, net: Network, s: Section, k: Key)
    requires Instance(inp) == Some(doc) && NetworkOf(inp) == Some(net)
    ensures inp.config.Some? && inp.config.value.Text? && doc.Text? && doc.layout == inp.config.value.layout
    ensures doc.file.Lookup(s, k) ==
            PreparedTo(inp.platform, net, inp.nsxSecret, inp.lbSecret, inp.config.value.file, s, k)
    ensures net == if inp.platform.OpenShift? then inp.network.value else Network([], true)
  {
    PreparedExactly(inp.platform, net, inp.nsxSecret, inp.lbSecret, inp.config.value.file, s, k);
  }

  ghost function Reconciled(s: State, inp: Inputs, fl: Faults): Step {
    ReconciledWith(s, inp, Instance(inp), fl)
  }

  /** Reconcile with the prepared configuration given; `None` when it was rejected. */
  ghost function ReconciledWith(s: State, inp: Inputs, doc: Option<Document>, fl: Faults): Step
    requires doc.Some? ==> doc.value.Text?
  {
    if fl.inputs then Step(s, Failed, NotStarted)
    else if inp.install.None? || inp.config.None? || NetworkOf(inp).None? then Step(s, Skipped, NotStarted)
    else if doc.None? then Step(s, Failed, NotStarted)
    else
      var (applied, ok) := AppliedBefore(s, fl);
      Decided(s, inp, inp.install.value, doc.value, applied, ok, Decision(doc.value, applied), fl)
  }

  /** Reconcile of a prepared configuration, given the recovered applied configuration and the decision. */
  ghost function Decided(s: State, inp: Inputs, install: Install, doc: Document,
                         applied: Option<Document>, ok: bool, verdict: Verdict, fl: Faults): Step
    requires doc.Text?
  {
    var replicas := ClampedReplicas(doc.file, install.replicas);
    if replicas.None? then Step(s, Failed, NotStarted)
    else if !ok then Step(State(applied, s.cluster), Failed, NotStarted)
    else Compared(State(applied, s.cluster), inp, install, replicas.value, doc, verdict, fl)
  }

  /** Reconcile from the comparison with the applied configuration on. */
  ghost function Compared(s: State, inp: Inputs, install: Install, replicas: int, doc: Document,
                          verdict: Verdict, fl: Faults): Step
    requires doc.Text?
  {
    if !verdict.Flags? || ReadBlocked(s.cluster, inp, verdict.change, fl) then Step(s, Failed, NotStarted)
    else if ApplyDue(s.cluster, inp, install, replicas, verdict.change) then
      AppliedAll(s, inp, install, replicas, doc, fl)
    else if NetworkStatusDue(inp.platform, doc, s.applied) && fl.networkStatus then Step(s, Failed, NotStarted)
    else Step(s, NoChange, NotStarted)
  }

  ghost function AppliedAll(s: State, inp: Inputs, install: Install, replicas: int, doc: Document, fl: Faults): Step
    requires doc.Text?
  {
    var objs := RenderedObjects(NcpDocument(doc.file), AgentDocument(doc.file), inp, install, replicas);
    var n := AppliedCount(fl, |objs|);
    if n < |objs| then
      Step(State(s.applied, ApplyUpTo(s.cluster, objs, n)), Failed, PartWay)
    else
      Step(State(Some(doc), ApplyUpTo(s.cluster, objs, |objs|)),
           if NetworkStatusDue(inp.platform, doc, s.applied) && fl.networkStatus then Failed else Applied, Complete)
  }

  /** How many of `n` objects are applied. */
  function AppliedCount(fl: Faults, n: nat): (k: nat)
    ensures k <= n
  {
    if fl.applyAt.Some? && fl.applyAt.value < n then fl.applyAt.value else n
  }

  ghost function StartedAll(s: State, st: Started, inp: Inputs, install: Install, replicas: int, doc: Document,
                            need: NeedChange, fl: Faults): Started
    requires doc.Text?
  {
    var objs := RenderedObjects(NcpDocument(doc.file), AgentDocument(doc.file), inp, install, replicas);
    StartedUpTo(s.cluster, st, objs, Patches(s.applied, need), AppliedCount(fl, |objs|))
  }

  /** What the pods found after the comparison and apply phase. */
  ghost function ComparedStarts(s: State, st: Started, inp: Inputs, install: Install, replicas: int, doc: Document,
                                verdict: Verdict, fl: Faults): Started
    requires doc.Text?
  {
    if !verdict.Flags? || ReadBlocked(s.cluster, inp, verdict.change, fl) then st
    else if ApplyDue(s.cluster, inp, install, replicas, verdict.change) then
      StartedAll(s, st, inp, install, replicas, doc, WithSecrets(verdict.change, inp, s.cluster), fl)
    else st
  }

  /** What the pods found after a Reconcile. */
  ghost function ReconciledStarts(s: State, st: Started, inp: Inputs, doc: Option<Document>, fl: Faults): Started
    requires doc.Some? ==> doc.value.Text?
  {
    if fl.inputs || inp.install.None? || inp.config.None? || NetworkOf(inp).None? || doc.None? then st
    else
      var (applied, ok) := AppliedBefore(s, fl);
      var replicas := ClampedReplicas(doc.value.file, inp.install.value.replicas);
      if replicas.None? || !ok then st
      else ComparedStarts(State(applied, s.cluster), st, inp, inp.install.value, replicas.value, doc.value,
                          Decision(doc.value, applied), fl)
  }

  class Controller {
    var applied: Option<Document>
    var cluster: Cluster
    ghost var started: Started

    constructor (s: State, ghost started: Started)
      ensures applied == s.applied && cluster == s.cluster && this.started == started
    {
      applied, cluster, this.started := s.applied, s.cluster, started;
    }

    /** Patches and applies the rendered objects in order, stopping at the first failure. */
    method ApplyObjects(objs: seq<Object>, patch: NeedChange, fl: Faults) returns (ok: bool)
      modifies this`cluster, this`started
      ensures ok == (AppliedCount(fl, |objs|) == |objs|)
      ensures cluster == ApplyUpTo(old(cluster), objs, AppliedCount(fl, |objs|))
      ensures started == StartedUpTo(old(cluster), old(started), objs, patch, AppliedCount(fl, |objs|))
    {
      for i := 0 to |objs|
        invariant fl.applyAt.Some? ==> i <= fl.applyAt.value
        invariant cluster == ApplyUpTo(old(cluster), objs, i)
        invariant started == StartedUpTo(old(cluster), old(started), objs, patch, i)
      {
        if fl.applyAt == Some(i) {
          return false;
        }
        started := StartAfter(cluster, started, objs[i], patch);
        cluster := ApplyObject(cluster, objs[i]);
      }
      ok := true;
    }

    /** Recovers the applied configuration when memory has none. */
    method RecoverApplied(fl: Faults) returns (ok: bool)
      modifies this`applied
      ensures (applied, ok) == AppliedBefore(State(old(applied), cluster), fl)
    {
      ok := true;
      if applied.None? {
        var ncp := if fl.ncpConfig then None else cluster.ncpConfig;
        var agent := if fl.agentConfig then None else cluster.agentConfig;
        if ncp.Some? && agent.Some? {
          applied := Some(Text(EMPTY_FILE, ""));
          if ncp.value.Malformed? || agent.value.Malformed? {
            return false;
          }
          var op := GenerateOperatorConfigMap(ncp.value.file, agent.value.file);
          applied := Some(Text(op, ""));
        }
      }
    }

    /** Renders and applies everything, then remembers the configuration as applied. */
    method ApplyRendered(inp: Inputs, install: Install, replicas: int, doc: Document, need: NeedChange,
                         statusDue: bool, fl: Faults)
      returns (outcome: Outcome, extent: Extent)
      requires doc.Text? && statusDue == NetworkStatusDue(inp.platform, doc, applied)
      modifies this
      ensures Step(State(applied, cluster), outcome, extent) ==
              AppliedAll(State(old(applied), old(cluster)), inp, install, replicas, doc, fl)
      ensures started ==
              StartedAll(State(old(applied), old(cluster)), old(started), inp, install, replicas, doc, need, fl)
    {
      var ncp := GenerateConfigMap(doc.file, NCP_SECTIONS);
      var agent := GenerateConfigMap(doc.file, AGENT_SECTIONS);
      var objs := RenderedObjects(Text(ncp, ""), Text(agent, ""), inp, install, replicas);
      var ok := ApplyObjects(objs, if applied.Some? then need else NOTHING, fl);
      if !ok {
        return Failed, PartWay;
      }
      applied := Some(doc);
      if statusDue && fl.networkStatus {
        return Failed, Complete;
      }
      return Applied, Complete;
    }

    /** `isSecretChanged`: reads nsx-secret first and lb-secret only when that one is unchanged. */
    method CompareSecrets(inp: Inputs, fl: Faults) returns (ok: bool, changed: bool)
      ensures ok <==> !(fl.nsxSecret || (fl.lbSecret && !SecretNotEqual(inp.nsxSecret, cluster.nsxSecret)))
      ensures ok ==> changed == SecretsChanged(inp, cluster)
    {
      if fl.nsxSecret {
        return false, false;
      }
      changed := SecretNotEqual(inp.nsxSecret, cluster.nsxSecret);
      if !changed {
        if fl.lbSecret {
          return false, false;
        }
        changed := SecretNotEqual(inp.lbSecret, cluster.lbSecret);
      }
      ok := true;
    }

    /** The reads after the configurations were compared, and what they say. */
    method CompareObjects(inp: Inputs, install: Install, replicas: int, change: NeedChange, fl: Faults)
      returns (ok: bool, due: bool, need: NeedChange)
      ensures ok <==> !ReadBlocked(cluster, inp, change, fl)
      ensures ok ==> due == ApplyDue(cluster, inp, install, replicas, change)
      ensures ok ==> need == WithSecrets(change, inp, cluster)
    {
      due, need := true, change;
      if !need.ncp {
        var readable, changed := CompareSecrets(inp, fl);
        if !readable {
          return false, due, need;
        }
        need := need.(ncp := changed);
      }
      if fl.agentDs {
        return false, due, need;
      }
      var agentChanged := AgentDsChanged(install, cluster);
      if !need.ncp && !need.agent && !need.bootstrap {
        if fl.monitored {
          return false, due, need;
        } else if !AnyMonitoredDeleted(cluster) {
          if fl.deployment {
            return false, due, need;
          }
          due := DeploymentChanged(inp, install, replicas, cluster) || agentChanged;
        }
      }
      ok := true;
    }

    method CompareAndApply(inp: Inputs, install: Install, replicas: int, doc: Document, fl: Faults)
      returns (outcome: Outcome, extent: Extent)
      requires doc.Text?
      modifies this
      ensures Step(State(applied, cluster), outcome, extent) ==
              Compared(State(old(applied), old(cluster)), inp, install, replicas, doc, Decision(doc, old(applied)), fl)
      ensures started ==
              ComparedStarts(State(old(applied), old(cluster)), old(started), inp, install, replicas, doc,
                             Decision(doc, old(applied)), fl)
    {
      var statusDue := NetworkStatusDue(inp.platform, doc, applied);
      var verdict := NeedApplyChange(doc, applied);
      if !verdict.Flags? {
        return Failed, NotStarted;
      }
      var ok, due, need := CompareObjects(inp, install, replicas, verdict.change, fl);
      if !ok {
        return Failed, NotStarted;
      }
      if !due {
        // the network status is updated even when nothing is applied
        if statusDue && fl.networkStatus {
          return Failed, NotStarted;
        }
        return NoChange, NotStarted;
      }
      outcome, extent := ApplyRendered(inp, install, replicas, doc, need, statusDue, fl);
    }

    method Reconcile(inp: Inputs, fl: Faults) returns (outcome: Outcome, extent: Extent)
      modifies this
      ensures Step(State(applied, cluster), outcome, extent) == Reconciled(State(old(applied), old(cluster)), inp, fl)
      ensures started == ReconciledStarts(State(old(applied), old(cluster)), old(started), inp, Instance(inp), fl)
    {
      if fl.inputs {
        return Failed, NotStarted;
      }
      if inp.install.None? || inp.config.None? || NetworkOf(inp).None? {
        return Skipped, NotStarted;
      }
      var doc := PrepareInstance(inp);
      outcome, extent := ReconcileWith(inp, doc, fl);
    }

    method ReconcileWith(inp: Inputs, doc: Option<Document>, fl: Faults) returns (outcome: Outcome, extent: Extent)
      requires inp.install.Some? && inp.config.Some? && NetworkOf(inp).Some? && !fl.inputs
      requires doc.Some? ==> doc.value.Text?
      modifies this
      ensures Step(State(applied, cluster), outcome, extent) ==
              ReconciledWith(State(old(applied), old(cluster)), inp, doc, fl)
      ensures started == ReconciledStarts(State(old(applied), old(cluster)), old(started), inp, doc, fl)
    {
      if doc.None? {
        return Failed, NotStarted;
      }
      var replicas := ClampedReplicas(doc.value.file, inp.install.value.replicas);
      if replicas.None? {
        return Failed, NotStarted;
      }
      var ok := RecoverApplied(fl);
      if !ok {
        return Failed, NotStarted;
      }
      outcome, extent := CompareAndApply(inp, inp.install.value, replicas.value, doc.value, fl);
    }
  }

  /** Loads, defaults, validates and completes the submitted configuration. */
  method PrepareInstance(inp: Inputs) returns (doc: Option<Document>)
    requires inp.config.Some? && NetworkOf(inp).Some?
    ensures doc == Instance(inp)
  {
    if inp.config.value.Malformed? {
      return None;
    }
    var file := Prepare(inp.platform, NetworkOf(inp).value, inp.nsxSecret, inp.lbSecret, inp.config.value.file);
    doc := if file.None? then None else Some(Text(file.value, inp.config.value.layout));
  }
}
