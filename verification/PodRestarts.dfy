/** What the restart flags are for: after a successful Reconcile the pods of every workload run with the options that
    matter to them. */
module PodRestarts {
  import opened Common
  import opened Names
  import opened Ini
  import opened ConfigDiff
  import opened Projection
  import opened Pipeline
  import opened Reconciler
  import opened ConfigRuns
  import opened PartialApply
  import opened WatchedObjects

  datatype Pods = NcpPods | BootstrapPods | AgentPods

  /** The options the pods of a workload depend on, spelled out. */
  predicate Relevant(w: Pods, s: Section, k: Key) {
    match w
    case NcpPods => s.DEFAULT? || s.Ha? || s.K8s? || s.Coe? || s.NsxV3? || s.Vc?
    case BootstrapPods =>
      || (s.DEFAULT? && (k.LogDir? || k.LogFile? || k.LogRotationFileMaxMb? || k.LogRotationBackupCount?))
      || (s.NsxNodeAgent? && (k.EnableIpv6? || k.UseNsxOvsKernelModule? || k.OvsUplinkPort? || k.Mtu?))
    case AgentPods =>
      || s.DEFAULT? || s.NsxNodeAgent? || s.NsxKubeProxy?
      || (s.K8s? && RelevantK8s(k))
      || (s.Coe? && k.ConnectRetryTimeout?)
  }

  predicate RelevantK8s(k: Key) {
    k.ApiserverHostIp? || k.ApiserverHostPort? || k.ClientTokenFile? || k.CaFile? || k.EnableHostportSnat?
  }

  /** These are the options of the operator's tables. */
  lemma RelevantIsListed(w: Pods, s: Section, k: Key)
    ensures Relevant(w, s, k) <==>
            match w
            case NcpPods => s in NCP_SECTIONS
            case BootstrapPods => s in BOOTSTRAP_RESTART_OPTION_KEYS && k in BOOTSTRAP_RESTART_OPTION_KEYS[s]
            case AgentPods =>
              || s in AGENT_RESTART_SECTIONS
              || (s in AGENT_RESTART_OPTION_KEYS && k in AGENT_RESTART_OPTION_KEYS[s])
  {
    if w.BootstrapPods? {
      BootstrapOptions(s, k);
    } else if w.AgentPods? {
      AgentOptions(s, k);
    }
  }

  lemma BootstrapOptions(s: Section, k: Key)
    ensures s in BOOTSTRAP_RESTART_OPTION_KEYS && k in BOOTSTRAP_RESTART_OPTION_KEYS[s] <==>
            Relevant(BootstrapPods, s, k)
  {
    assert s in BOOTSTRAP_RESTART_OPTION_KEYS ==> s == DEFAULT || s == NsxNodeAgent;
    assert BOOTSTRAP_RESTART_OPTION_KEYS[DEFAULT] == [LogDir, LogFile, LogRotationFileMaxMb, LogRotationBackupCount];
    assert BOOTSTRAP_RESTART_OPTION_KEYS[NsxNodeAgent] == [EnableIpv6, UseNsxOvsKernelModule, OvsUplinkPort, Mtu];
  }

  lemma AgentOptions(s: Section, k: Key)
    ensures s in AGENT_RESTART_OPTION_KEYS && k in AGENT_RESTART_OPTION_KEYS[s] <==>
            (s.K8s? && RelevantK8s(k)) || (s.Coe? && k.ConnectRetryTimeout?)
  {
    assert s in AGENT_RESTART_OPTION_KEYS ==> s == Section.K8s || s == Coe;
    assert AGENT_RESTART_OPTION_KEYS[Coe] == [ConnectRetryTimeout];
    K8sOptions(AGENT_RESTART_OPTION_KEYS[Section.K8s], k);
  }

  lemma K8sOptions(keys: seq<Key>, k: Key)
    requires keys == [ApiserverHostIp, ApiserverHostPort, ClientTokenFile, CaFile, EnableHostportSnat]
    ensures k in keys <==> RelevantK8s(k)
  {
  }

  /** Two files are the same to these pods. */
  ghost predicate SameFor(w: Pods, a: File, b: File) {
    forall s, k :: Relevant(w, s, k) ==> Effective(a, s, k) == Effective(b, s, k)
  }

  function RunningOf(st: Started, w: Pods): Running {
    match w
    case NcpPods => st.ncp
    case BootstrapPods => st.bootstrap
    case AgentPods => st.agent
  }

  function Flag(change: NeedChange, w: Pods): bool {
    match w
    case NcpPods => change.ncp
    case BootstrapPods => change.bootstrap
    case AgentPods => change.agent
  }

  function TableOf(w: Pods): seq<Section> { if w.NcpPods? then NCP_SECTIONS else AGENT_SECTIONS }

  /** The pods run with what `f` says. */
  ghost predicate Fresh(st: Started, w: Pods, f: File) {
    RunningOf(st, w).file.Some? && SameFor(w, RunningOf(st, w).file.value, f)
  }

  lemma RelevantRendered(w: Pods, s: Section, k: Key)
    requires Relevant(w, s, k)
    ensures s in TableOf(w) && s in OPERATOR_SECTIONS
  {
    RelevantIsListed(w, s, k);
  }

  lemma SameForTransitive(w: Pods, a: File, b: File, c: File)
    requires SameFor(w, a, b) && SameFor(w, b, c)
    ensures SameFor(w, a, c)
  {
    forall s, k | Relevant(w, s, k) ensures Effective(a, s, k) == Effective(c, s, k) {
      assert Effective(a, s, k) == Effective(b, s, k) == Effective(c, s, k);
    }
  }

  lemma SameOptionsSameFor(w: Pods, a: File, b: File)
    requires SameOperatorOptions(a, b)
    ensures SameFor(w, a, b)
  {
    forall s, k | Relevant(w, s, k) ensures Effective(a, s, k) == Effective(b, s, k) {
      RelevantRendered(w, s, k);
    }
  }

  /** A workload's ConfigMap has all its options. */
  lemma RenderedSameFor(w: Pods, f: File)
    ensures SameFor(w, Project(f, TableOf(w)), f)
  {
    forall s, k | Relevant(w, s, k) ensures Effective(Project(f, TableOf(w)), s, k) == Effective(f, s, k) {
      RelevantRendered(w, s, k);
      ProjectedOption(f, TableOf(w), s, k);
    }
  }

  /** When a flag is not raised, its workload has nothing to learn. */
  lemma UnflaggedSameFor(w: Pods, cur: File, prev: File)
    requires !Flag(FlagsFor(cur, prev), w)
    ensures SameFor(w, prev, cur)
  {
    forall s, k | Relevant(w, s, k) ensures Effective(prev, s, k) == Effective(cur, s, k) {
      RelevantIsListed(w, s, k);
      match w
      case NcpPods => assert !SectionDiffers(cur, prev, s) && !OptionDiffers(cur, prev, s, k);
      case BootstrapPods => UntouchedOption(BOOTSTRAP_RESTART_OPTION_KEYS, cur, prev, s, k);
      case AgentPods =>
        if s in AGENT_RESTART_SECTIONS {
          assert !SectionDiffers(cur, prev, s) && !OptionDiffers(cur, prev, s, k);
        } else {
          UntouchedOption(AGENT_RESTART_OPTION_KEYS, cur, prev, s, k);
        }
    }
  }

  lemma UntouchedOption(options: map<Section, seq<Key>>, cur: File, prev: File, s: Section, k: Key)
    requires s in options && k in options[s] && !TableHit(options, cur, prev, s)
    ensures Effective(prev, s, k) == Effective(cur, s, k)
  {
    if OptionDiffers(cur, prev, s, k) {
      assert SectionDiffers(cur, prev, s);
    }
  }

  /** A section came or went, together with some option. */
  ghost predicate CameOrWent(cur: File, prev: File, s: Section) {
    cur.HasSection(s) != prev.HasSection(s) && exists k :: Effective(cur, s, k) != Effective(prev, s, k)
  }

  /** A flag is raised when something relevant to its pods changed, and otherwise only for a section with restart
      options that came or went: nsx_node_agent for nsx-ncp-bootstrap, k8s for nsx-node-agent. */
  lemma FlagExactly(w: Pods, cur: File, prev: File)
    ensures Flag(FlagsFor(cur, prev), w) <==>
            || !SameFor(w, prev, cur)
            || (w.BootstrapPods? && CameOrWent(cur, prev, NsxNodeAgent))
            || (w.AgentPods? && CameOrWent(cur, prev, Section.K8s))
  {
    if !Flag(FlagsFor(cur, prev), w) {
      UnflaggedSameFor(w, cur, prev);
    }
    if w.NcpPods? {
      NcpFlagged(cur, prev);
    } else if w.BootstrapPods? {
      TableFlagged(BOOTSTRAP_RESTART_OPTION_KEYS, NsxNodeAgent, w, cur, prev);
    } else {
      AgentFlagged(cur, prev);
    }
  }

  lemma NcpFlagged(cur: File, prev: File)
    ensures NcpNeeded(cur, prev) ==> !SameFor(NcpPods, prev, cur)
  {
    if NcpNeeded(cur, prev) {
      var s :| s in NCP_SECTIONS && SectionDiffers(cur, prev, s);
      OptionRelevant(NcpPods, cur, prev, s);
    }
  }

  lemma AgentFlagged(cur: File, prev: File)
    ensures AgentNeeded(cur, prev) ==> !SameFor(AgentPods, prev, cur) || CameOrWent(cur, prev, Section.K8s)
    ensures CameOrWent(cur, prev, Section.K8s) ==> AgentNeeded(cur, prev)
  {
    if s :| s in AGENT_RESTART_SECTIONS && SectionDiffers(cur, prev, s) {
      OptionRelevant(AgentPods, cur, prev, s);
    } else {
      TableFlagged(AGENT_RESTART_OPTION_KEYS, Section.K8s, AgentPods, cur, prev);
    }
    if CameOrWent(cur, prev, Section.K8s) {
      CameOrWentHits(AGENT_RESTART_OPTION_KEYS, cur, prev, Section.K8s);
    }
  }

  /** Every option of the section is relevant to these pods. */
  lemma OptionRelevant(w: Pods, cur: File, prev: File, s: Section)
    requires SectionDiffers(cur, prev, s)
    requires (w.NcpPods? && s in NCP_SECTIONS) || (w.AgentPods? && s in AGENT_RESTART_SECTIONS)
    ensures !SameFor(w, prev, cur)
  {
    var k :| OptionDiffers(cur, prev, s, k);
    RelevantIsListed(w, s, k);
    assert Effective(prev, s, k) != Effective(cur, s, k);
  }

  lemma CameOrWentHits(options: map<Section, seq<Key>>, cur: File, prev: File, s: Section)
    requires s in options && s != Coe && s != NsxV3 && CameOrWent(cur, prev, s)
    ensures TableHit(options, cur, prev, s)
  {
    var k :| Effective(cur, s, k) != Effective(prev, s, k);
    assert OptionDiffers(cur, prev, s, k);
  }

  /** A table is hit by a relevant option, or by the section `s` that came or went. */
  lemma TableFlagged(options: map<Section, seq<Key>>, s: Section, w: Pods, cur: File, prev: File)
    requires || (w.BootstrapPods? && options == BOOTSTRAP_RESTART_OPTION_KEYS && s == NsxNodeAgent)
             || (w.AgentPods? && options == AGENT_RESTART_OPTION_KEYS && s == Section.K8s)
    ensures (exists t :: TableHit(options, cur, prev, t)) ==> !SameFor(w, prev, cur) || CameOrWent(cur, prev, s)
    ensures CameOrWent(cur, prev, s) ==> exists t :: TableHit(options, cur, prev, t)
  {
    if CameOrWent(cur, prev, s) {
      CameOrWentHits(options, cur, prev, s);
    }
    if t :| TableHit(options, cur, prev, t) {
      if k :| k in options[t] && OptionDiffers(cur, prev, t, k) {
        RelevantIsListed(w, t, k);
        assert Effective(prev, t, k) != Effective(cur, t, k);
      } else {
        assert Present(cur, t) != Present(prev, t);
        assert t == s;
        var k :| OptionDiffers(cur, prev, t, k);
        assert Effective(cur, s, k) != Effective(prev, s, k);
      }
    }
  }

  // ---------------------------------------------------------------- one apply loop

  ghost function OrNone(t: Option<Tolerations>): Tolerations { if t.Some? then t.value else [] }

  /** Applying starts these pods: they are new, their template changes, or it is or was patched. */
  ghost predicate Starts(c: Cluster, st: Started, w: Pods, inp: Inputs, install: Install, n: int, patch: NeedChange) {
    || Flag(patch, w) || RunningOf(st, w).stamped
    || match w
       case NcpPods =>
         || c.deployment.None?
         || c.deployment.value.image != (if inp.image != "" then inp.image else "nsx-ncp:latest")
         || c.deployment.value.selector != (if install.selector.Some? then install.selector.value else map[])
         || c.deployment.value.tolerations != OrNone(install.ncpTolerations)
       case BootstrapPods => c.bootstrapDs != Some(OrNone(install.agentTolerations))
       case AgentPods => c.agentDs != Some(OrNone(install.agentTolerations))
  }

  /** How many objects are applied when the workload is. */
  function PositionOf(w: Pods): nat {
    match w
    case NcpPods => 5
    case BootstrapPods => 7
    case AgentPods => 8
  }

  lemma AppliedFields(c: Cluster, objs: seq<Object>, ncp: Document, agent: Document, inp: Inputs, install: Install,
                      n: int)
    requires objs == RenderedObjects(ncp, agent, inp, install, n)
    ensures ApplyUpTo(c, objs, 4).ncpConfig == Some(ncp) && ApplyUpTo(c, objs, 4).deployment == c.deployment
    ensures ApplyUpTo(c, objs, 6).agentConfig == Some(agent) && ApplyUpTo(c, objs, 6).bootstrapDs == c.bootstrapDs
    ensures ApplyUpTo(c, objs, 7).agentConfig == Some(agent) && ApplyUpTo(c, objs, 7).agentDs == c.agentDs
  {
    assert ApplyUpTo(c, objs, 1) == c;
    assert ApplyUpTo(c, objs, 3).deployment == c.deployment && ApplyUpTo(c, objs, 3).bootstrapDs == c.bootstrapDs;
    assert ApplyUpTo(c, objs, 3).agentDs == c.agentDs;
    assert ApplyUpTo(c, objs, 5).bootstrapDs == c.bootstrapDs && ApplyUpTo(c, objs, 5).agentDs == c.agentDs;
  }

  /** The object of a workload. */
  predicate IsWorkload(o: Object, w: Pods) {
    match w
    case NcpPods => o.DeploymentObject?
    case BootstrapPods => o.BootstrapObject?
    case AgentPods => o.AgentObject?
  }

  lemma {:induction false} StartsOnce(c: Cluster, st: Started, objs: seq<Object>, patch: NeedChange, k: nat, w: Pods)
    requires k <= |objs| && PositionOf(w) <= |objs|
    requires forall i :: 0 <= i < |objs| ==> (IsWorkload(objs[i], w) <==> i == PositionOf(w) - 1)
    ensures var at := PositionOf(w) - 1;
            RunningOf(StartedUpTo(c, st, objs, patch, k), w) ==
            if k > at then RunningOf(StartAfter(ApplyUpTo(c, objs, at), st, objs[at], patch), w) else RunningOf(st, w)
  {
    if k > 0 {
      StartsOnce(c, st, objs, patch, k - 1, w);
      OneStart(ApplyUpTo(c, objs, k - 1), StartedUpTo(c, st, objs, patch, k - 1), st, objs[k - 1], patch, w);
    }
  }

  /** An object only starts its own workload, whatever the other pods run with. */
  lemma OneStart(c: Cluster, before: Started, st: Started, o: Object, patch: NeedChange, w: Pods)
    ensures !IsWorkload(o, w) ==> RunningOf(StartAfter(c, before, o, patch), w) == RunningOf(before, w)
    ensures RunningOf(before, w) == RunningOf(st, w) ==>
              RunningOf(StartAfter(c, before, o, patch), w) == RunningOf(StartAfter(c, st, o, patch), w)
  {
  }

  lemma WorkloadPositions(objs: seq<Object>, ncp: Document, agent: Document, inp: Inputs, install: Install, n: int,
                          w: Pods)
    requires objs == RenderedObjects(ncp, agent, inp, install, n)
    ensures PositionOf(w) <= |objs|
    ensures forall i :: 0 <= i < |objs| ==> (IsWorkload(objs[i], w) <==> i == PositionOf(w) - 1)
  {
  }

  /** After the first `k` objects a workload was started with its new ConfigMap exactly when it was applied and has a
      reason to start; otherwise its pods run on. */
  lemma StartsExactly(c: Cluster, st: Started, objs: seq<Object>, f: File, inp: Inputs, install: Install, n: int,
                      patch: NeedChange, k: nat, w: Pods)
    requires objs == RenderedObjects(NcpDocument(f), AgentDocument(f), inp, install, n) && k <= |objs|
    ensures RunningOf(StartedUpTo(c, st, objs, patch, k), w) ==
            if k >= PositionOf(w) && Starts(c, st, w, inp, install, n, patch)
            then Running(Some(Project(f, TableOf(w))), Flag(patch, w)) else RunningOf(st, w)
  {
    WorkloadPositions(objs, NcpDocument(f), AgentDocument(f), inp, install, n, w);
    StartsOnce(c, st, objs, patch, k, w);
    AppliedFields(c, objs, NcpDocument(f), AgentDocument(f), inp, install, n);
  }

  /** A complete apply leaves the pods of a workload fresh if they were so for the applied configuration. */
  lemma CompleteIsFresh(s: State, st: Started, inp: Inputs, install: Install, n: int, doc: Document, v: Verdict,
                        fl: Faults, w: Pods)
    requires doc.Text? && s.applied.Some? && s.applied.value.Text? && v == Decision(doc, s.applied)
    requires Fresh(st, w, s.applied.value.file)
    requires Compared(s, inp, install, n, doc, v, fl).extent.Complete?
    ensures Fresh(ComparedStarts(s, st, inp, install, n, doc, v, fl), w, doc.file)
  {
    var objs := RenderedObjects(NcpDocument(doc.file), AgentDocument(doc.file), inp, install, n);
    var patch := WithSecrets(v.change, inp, s.cluster);
    StartsExactly(s.cluster, st, objs, doc.file, inp, install, n, patch, |objs|, w);
    if Starts(s.cluster, st, w, inp, install, n, patch) {
      RenderedSameFor(w, doc.file);
    } else {
      DecidedUnflagged(doc, s.applied.value, v, w);
      SameForTransitive(w, RunningOf(st, w).file.value, s.applied.value.file, doc.file);
    }
  }

  /** A changed secret patches nsx-ncp, and only nsx-ncp. */
  lemma SecretsPatchNcp(change: NeedChange, inp: Inputs, c: Cluster)
    ensures var patch := WithSecrets(change, inp, c);
            && patch.agent == change.agent && patch.bootstrap == change.bootstrap
            && (patch.ncp <==> change.ncp || exists e :: Entry(c.nsxSecret, e) != Entry(inp.nsxSecret, e) ||
                                                         Entry(c.lbSecret, e) != Entry(inp.lbSecret, e))
  {
    SecretsCompared(inp.nsxSecret, c.nsxSecret);
    SecretsCompared(inp.lbSecret, c.lbSecret);
  }

  /** A complete apply after some entry of a secret changed starts the nsx-ncp pods anew. */
  lemma SecretRestartsNcp(s: State, st: Started, inp: Inputs, install: Install, n: int, doc: Document, v: Verdict,
                          fl: Faults, e: EntryName)
    requires doc.Text? && s.applied.Some?
    requires Compared(s, inp, install, n, doc, v, fl).extent.Complete?
    requires Entry(s.cluster.nsxSecret, e) != Entry(inp.nsxSecret, e) ||
             Entry(s.cluster.lbSecret, e) != Entry(inp.lbSecret, e)
    ensures ComparedStarts(s, st, inp, install, n, doc, v, fl).ncp ==
            Running(Some(Project(doc.file, NCP_SECTIONS)), true)
  {
    var objs := RenderedObjects(NcpDocument(doc.file), AgentDocument(doc.file), inp, install, n);
    var patch := WithSecrets(v.change, inp, s.cluster);
    SecretsPatchNcp(v.change, inp, s.cluster);
    StartsExactly(s.cluster, st, objs, doc.file, inp, install, n, patch, |objs|, NcpPods);
  }

  lemma DecidedUnflagged(doc: Document, prev: Document, v: Verdict, w: Pods)
    requires doc.Text? && prev.Text? && v == Decision(doc, Some(prev)) && v.Flags? && !Flag(v.change, w)
    ensures SameFor(w, prev.file, doc.file)
  {
    if doc != prev {
      UnflaggedSameFor(w, doc.file, prev.file);
    }
  }

  /** A complete apply to a cluster without workloads starts all of them. */
  lemma FirstIsFresh(s: State, st: Started, inp: Inputs, install: Install, n: int, doc: Document, v: Verdict,
                     fl: Faults, w: Pods)
    requires doc.Text? && NoWorkloads(s.cluster)
    requires Compared(s, inp, install, n, doc, v, fl).extent.Complete?
    ensures Fresh(ComparedStarts(s, st, inp, install, n, doc, v, fl), w, doc.file)
  {
    var objs := RenderedObjects(NcpDocument(doc.file), AgentDocument(doc.file), inp, install, n);
    var patch := Patches(s.applied, WithSecrets(v.change, inp, s.cluster));
    StartsExactly(s.cluster, st, objs, doc.file, inp, install, n, patch, |objs|, w);
    RenderedSameFor(w, doc.file);
  }

  ghost predicate NoWorkloads(c: Cluster) { c.deployment.None? && c.bootstrapDs.None? && c.agentDs.None? }

  /** An apply without an applied configuration patches nothing: it leaves the pods of a workload fresh exactly when it
      has another reason to start them or nothing relevant to them changed. */
  lemma MissedExactly(s: State, st: Started, inp: Inputs, install: Install, n: int, doc: Document, v: Verdict,
                      fl: Faults, w: Pods, f: File)
    requires doc.Text? && s.applied.None? && Fresh(st, w, f)
    requires Compared(s, inp, install, n, doc, v, fl).extent.Complete?
    ensures Fresh(ComparedStarts(s, st, inp, install, n, doc, v, fl), w, doc.file) <==>
            Starts(s.cluster, st, w, inp, install, n, NOTHING) || SameFor(w, f, doc.file)
  {
    var objs := RenderedObjects(NcpDocument(doc.file), AgentDocument(doc.file), inp, install, n);
    StartsExactly(s.cluster, st, objs, doc.file, inp, install, n, NOTHING, |objs|, w);
    RenderedSameFor(w, doc.file);
    KeptExactly(st, w, f, doc.file);
  }

  /** Pods that are fresh for `f` are fresh for `g` exactly when nothing relevant to them changed. */
  lemma KeptExactly(st: Started, w: Pods, f: File, g: File)
    requires Fresh(st, w, f)
    ensures Fresh(st, w, g) <==> SameFor(w, f, g)
  {
    var there := RunningOf(st, w).file.value;
    assert SameFor(w, f, there);
    if SameFor(w, there, g) {
      SameForTransitive(w, f, there, g);
    }
    if SameFor(w, f, g) {
      SameForTransitive(w, there, f, g);
    }
  }

  // ---------------------------------------------------------------- runs

  /** `missed`: an apply loop stopped part-way, or applied without an applied configuration although there were
      workloads, since the operator was installed. */
  datatype PodWorld = PodWorld(state: State, started: Started, missed: bool)

  datatype PodEvent = Sync(inp: Inputs, fl: Faults) | OperatorRestart | PodsStart(w: Pods)

  ghost predicate Misses(s: State, inp: Inputs, doc: Option<Document>, fl: Faults)
    requires doc.Some? ==> doc.value.Text?
  {
    var r := ReconciledWith(s, inp, doc, fl);
    r.extent.PartWay? || (r.extent.Complete? && AppliedBefore(s, fl).0.None? && !NoWorkloads(s.cluster))
  }

  function WithStarted(st: Started, w: Pods, f: Option<File>): Started {
    match w
    case NcpPods => st.(ncp := st.ncp.(file := f))
    case BootstrapPods => st.(bootstrap := st.bootstrap.(file := f))
    case AgentPods => st.(agent := st.agent.(file := f))
  }

  function ConfigOf(c: Cluster, w: Pods): Option<File> {
    FileOf(if w.NcpPods? then c.ncpConfig else c.agentConfig)
  }

  ghost function PodNext(p: PodWorld, e: PodEvent): PodWorld {
    match e
    case Sync(inp, fl) =>
      PodWorld(Reconciled(p.state, inp, fl).state, ReconciledStarts(p.state, p.started, inp, Instance(inp), fl),
               p.missed || Misses(p.state, inp, Instance(inp), fl))
    case OperatorRestart => p.(state := State(None, p.state.cluster))
    case PodsStart(w) => p.(started := WithStarted(p.started, w, ConfigOf(p.state.cluster, w)))
  }

  ghost function PodRun(p: PodWorld, events: seq<PodEvent>): PodWorld {
    if events == [] then p else PodNext(PodRun(p, events[..|events| - 1]), events[|events| - 1])
  }

  ghost predicate FreshAll(st: Started, f: File) { forall w :: Fresh(st, w, f) }

  ghost predicate NothingThere(s: State) {
    s.applied.None? && s.cluster.ncpConfig.None? && s.cluster.agentConfig.None? && NoWorkloads(s.cluster)
  }

  /** Nothing is there, or everything comes from one configuration, with which the pods run. */
  ghost predicate Ready(s: State, st: Started) {
    NothingThere(s) || exists f: File :: TracedTo(s, f) && FreshAll(st, f)
  }

  ghost predicate PodInv(p: PodWorld) {
    Loadable(p.state.applied) && (!p.missed ==> Ready(p.state, p.started))
  }

  /** What the pods found, given what is remembered or recovered. */
  lemma StartsAre(s: State, st: Started, inp: Inputs, doc: Document, n: int, applied: Option<Document>, ok: bool,
                  v: Verdict, fl: Faults)
    requires !fl.inputs && inp.install.Some? && inp.config.Some? && NetworkOf(inp).Some? && doc.Text?
    requires ClampedReplicas(doc.file, inp.install.value.replicas) == Some(n)
    requires AppliedBefore(s, fl) == (applied, ok) && v == Decision(doc, applied)
    ensures ReconciledStarts(s, st, inp, Some(doc), fl) ==
            if ok then ComparedStarts(State(applied, s.cluster), st, inp, inp.install.value, n, doc, v, fl) else st
  {
  }

  /** A Reconcile that applies nothing starts nothing. */
  lemma NothingStarts(s: State, st: Started, inp: Inputs, doc: Option<Document>, fl: Faults)
    requires doc.Some? ==> doc.value.Text?
    requires ReconciledWith(s, inp, doc, fl).extent.NotStarted?
    ensures ReconciledStarts(s, st, inp, doc, fl) == st
  {
  }

  /** A complete apply that misses nothing leaves all pods fresh. */
  lemma CompleteFresh(s: State, st: Started, inp: Inputs, doc: Document, fl: Faults)
    requires Loadable(s.applied) && doc.Text? && Ready(s, st)
    requires ReconciledWith(s, inp, Some(doc), fl).extent.Complete? && !Misses(s, inp, Some(doc), fl)
    ensures FreshAll(ReconciledStarts(s, st, inp, Some(doc), fl), doc.file)
  {
    var (applied, ok) := AppliedBefore(s, fl);
    var n, v := ClampedReplicas(doc.file, inp.install.value.replicas).value, Decision(doc, applied);
    ReconciledIs(s, inp, doc, n, applied, ok, v, fl);
    StartsAre(s, st, inp, doc, n, applied, ok, v, fl);
    forall w ensures Fresh(ReconciledStarts(s, st, inp, Some(doc), fl), w, doc.file) {
      if NoWorkloads(s.cluster) {
        FirstIsFresh(State(applied, s.cluster), st, inp, inp.install.value, n, doc, v, fl, w);
      } else {
        var f: File :| TracedTo(s, f) && FreshAll(st, f);
        RecoveredTraced(s, fl, f);
        FreshForApplied(st, w, f, applied.value.file);
        CompleteIsFresh(State(applied, s.cluster), st, inp, inp.install.value, n, doc, v, fl, w);
      }
    }
  }

  lemma FreshForApplied(st: Started, w: Pods, f: File, applied: File)
    requires Fresh(st, w, f) && SameOperatorOptions(applied, f)
    ensures Fresh(st, w, applied)
  {
    SameOptionsSameFor(w, applied, f);
    assert SameFor(w, f, applied);
    KeptExactly(st, w, f, applied);
  }

  lemma SyncKeepsInv(p: PodWorld, inp: Inputs, doc: Option<Document>, fl: Faults)
    requires PodInv(p) && Loadable(doc)
    ensures var r := ReconciledWith(p.state, inp, doc, fl);
            && Loadable(r.state.applied)
            && (!p.missed && !Misses(p.state, inp, doc, fl) ==>
                  Ready(r.state, ReconciledStarts(p.state, p.started, inp, doc, fl)))
  {
    var r := ReconciledWith(p.state, inp, doc, fl);
    StepCases(p.state, inp, doc, fl);
    if !p.missed && !Misses(p.state, inp, doc, fl) {
      if r.extent.Complete? {
        CompleteFresh(p.state, p.started, inp, doc.value, fl);
        assert TracedTo(r.state, doc.value.file);
      } else {
        NothingStarts(p.state, p.started, inp, doc, fl);
        if f: File :| TracedTo(p.state, f) && FreshAll(p.started, f) {
          RecoveredTraced(p.state, fl, f);
          assert TracedTo(r.state, f);
        }
      }
    }
  }

  lemma StartKeepsFresh(s: State, st: Started, w: Pods, f: File)
    requires TracedTo(s, f) && FreshAll(st, f)
    ensures FreshAll(WithStarted(st, w, ConfigOf(s.cluster, w)), f)
  {
    var after := WithStarted(st, w, ConfigOf(s.cluster, w));
    RenderedSameFor(w, f);
    assert Fresh(after, w, f);
    forall v ensures Fresh(after, v, f) {
      if v != w {
        assert RunningOf(after, v) == RunningOf(st, v) && Fresh(st, v, f);
      }
    }
  }

  lemma PodNextKeepsInv(p: PodWorld, e: PodEvent)
    requires PodInv(p)
    ensures PodInv(PodNext(p, e))
  {
    match e
    case Sync(inp, fl) => SyncKeepsInv(p, inp, Instance(inp), fl);
    case OperatorRestart =>
      if f: File :| TracedTo(p.state, f) && FreshAll(p.started, f) {
        assert TracedTo(State(None, p.state.cluster), f);
      }
    case PodsStart(w) =>
      if f: File :| TracedTo(p.state, f) && FreshAll(p.started, f) {
        StartKeepsFresh(p.state, p.started, w, f);
      }
  }

  lemma {:induction false} PodRunKeepsInv(p: PodWorld, events: seq<PodEvent>)
    requires NothingThere(p.state)
    ensures PodInv(PodRun(p, events))
  {
    if events != [] {
      PodRunKeepsInv(p, events[..|events| - 1]);
      PodNextKeepsInv(PodRun(p, events[..|events| - 1]), events[|events| - 1]);
    }
  }

  /** Main theorem.  Over every run from an empty cluster, restarts of the operator and of pods included, a successful
      Reconcile leaves the pods of every workload with the submitted values of all options relevant to them, unless an
      apply was missed. */
  lemma RestartsSuffice(p: PodWorld, events: seq<PodEvent>, inp: Inputs, fl: Faults)
    requires NothingThere(p.state)
    ensures var before := PodRun(p, events);
            var doc := Instance(inp);
            var r := ReconciledWith(before.state, inp, doc, fl);
            && r == Reconciled(before.state, inp, fl)
            && ((r.outcome.Applied? || r.outcome.NoChange?) &&
                !before.missed && !Misses(before.state, inp, doc, fl) ==>
                  doc.Some? && FreshAll(ReconciledStarts(before.state, before.started, inp, doc, fl), doc.value.file))
  {
    PodRunKeepsInv(p, events);
    SuccessIsFresh(PodRun(p, events), inp, Instance(inp), fl);
  }

  lemma SuccessIsFresh(p: PodWorld, inp: Inputs, doc: Option<Document>, fl: Faults)
    requires PodInv(p) && Loadable(doc)
    ensures var r := ReconciledWith(p.state, inp, doc, fl);
            (r.outcome.Applied? || r.outcome.NoChange?) && !p.missed && !Misses(p.state, inp, doc, fl) ==>
              doc.Some? && FreshAll(ReconciledStarts(p.state, p.started, inp, doc, fl), doc.value.file)
  {
    var r := ReconciledWith(p.state, inp, doc, fl);
    StepCases(p.state, inp, doc, fl);
    if p.missed || Misses(p.state, inp, doc, fl) {
    } else if r.outcome.Applied? {
      CompleteFresh(p.state, p.started, inp, doc.value, fl);
    } else if r.outcome.NoChange? {
      NothingStarts(p.state, p.started, inp, doc, fl);
      QuietDecision(doc.value.file, doc.value.layout, r.state.applied);
      var f: File :| TracedTo(p.state, f) && FreshAll(p.started, f);
      RecoveredTraced(p.state, fl, f);
      SameOperatorOptionsTransitive(doc.value.file, r.state.applied.value.file, f);
      forall w ensures Fresh(p.started, w, doc.value.file) { FreshForApplied(p.started, w, f, doc.value.file); }
    }
  }

  // ---------------------------------------------------------------- stopping part-way and restarting

  lemma PartWayStarts(s: State, st: Started, inp: Inputs, install: Install, a: Document, b: Document, n: int,
                      v: Verdict, k: nat, w: Pods)
    requires a.Text? && b.Text? && s.applied == Some(a) && v == Decision(b, Some(a))
    requires v.Flags? && v.change != NOTHING && k < ObjectCount(inp.platform) && Fresh(st, w, a.file)
    ensures Fresh(ComparedStarts(s, st, inp, install, n, b, v, NO_FAULTS.(applyAt := Some(k))), w, b.file) <==>
            || SameFor(w, a.file, b.file)
            || (k >= PositionOf(w) && Starts(s.cluster, st, w, inp, install, n, WithSecrets(v.change, inp, s.cluster)))
  {
    var objs := RenderedObjects(NcpDocument(b.file), AgentDocument(b.file), inp, install, n);
    StartsExactly(s.cluster, st, objs, b.file, inp, install, n, WithSecrets(v.change, inp, s.cluster), k, w);
    RenderedSameFor(w, b.file);
    KeptExactly(st, w, a.file, b.file);
  }

  /** From a converged cluster for `a`, an apply of `b` that stops behind both ConfigMaps, a restart, then `b` again: no
      change is reported, and the pods of a workload are fresh exactly when the loop had got to it or nothing relevant
      to them changed. */
  lemma NotRestartedExactly(inpA: Inputs, inpB: Inputs, a: Document, b: Document, na: int, nb: int, k: nat,
                            st: Started, w: Pods)
    requires TwoConfigs(inpA, inpB, a, b, na, nb) && 6 <= k < ObjectCount(inpA.platform)
    requires Settles(inpA, inpA.install.value) && Fresh(st, w, a.file)
    requires Decision(b, Some(a)).Flags? && Decision(b, Some(a)).change != NOTHING
    ensures var fl := NO_FAULTS.(applyAt := Some(k));
            var s := State(Some(a), Converged(inpA, inpA.install.value, a, na));
            var restarted := State(None, ReconciledWith(s, inpB, Some(b), fl).state.cluster);
            var partial := ReconciledStarts(s, st, inpB, Some(b), fl);
            var after := ReconciledStarts(restarted, partial, inpB, Some(b), NO_FAULTS);
            && ReconciledWith(restarted, inpB, Some(b), NO_FAULTS).outcome.NoChange?
            && (Fresh(after, w, b.file) <==> k >= PositionOf(w) || SameFor(w, a.file, b.file))
  {
    var fl := NO_FAULTS.(applyAt := Some(k));
    var s := State(Some(a), Converged(inpA, inpA.install.value, a, na));
    var v := Decision(b, Some(a));
    ResubmitAfterRestart(inpA, inpB, a, b, na, nb, k);
    var restarted := State(None, ReconciledWith(s, inpB, Some(b), fl).state.cluster);
    var partial := ReconciledStarts(s, st, inpB, Some(b), fl);
    StepCases(restarted, inpB, Some(b), NO_FAULTS);
    NothingStarts(restarted, partial, inpB, Some(b), NO_FAULTS);
    StartsAre(s, st, inpB, b, nb, Some(a), true, v, fl);
    PartWayStarts(s, st, inpB, inpB.install.value, a, b, nb, v, k, w);
    if !Flag(v.change, w) {
      DecidedUnflagged(b, a, v, w);
    }
  }
}
