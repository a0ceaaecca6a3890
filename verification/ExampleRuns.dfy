/** Concrete runs, from an empty cluster and through the whole pipeline, in which the ConfigMap controller does not do
    what one would expect. */
module ExampleRuns {
  import opened Common
  import opened Names
  import opened Ini
  import opened ConfigDiff
  import opened Projection
  import opened Pipeline
  import opened Reconciler
  import opened ConfigRuns
  import opened PartialApply
  import opened PodRestarts
  import opened Samples
  import opened StuckRuns
  import opened WatchedObjects

  const BASE := Params("c", "m", "h", "")
  const OTHER_MANAGERS := Params("c", "n", "h", "")
  const OTHER_HOST := Params("c", "m", "i", "")
  const OTHER_CLUSTER := Params("d", "m", "h", "")

  function Plain(x: Params): Inputs { Submitting(Sample(x), "img", PLAIN) }

  function Doc(x: Params): Document { Text(Sample(x), "") }

  // ---------------------------------------------------------------- the first Reconcile

  lemma FirstApplies(inp: Inputs, a: Document, n: int)
    requires a.Text? && inp.install.Some? && inp.config.Some? && NetworkOf(inp).Some?
    requires ClampedReplicas(a.file, inp.install.value.replicas) == Some(n)
    ensures ReconciledWith(START, inp, Some(a), NO_FAULTS) ==
            Step(State(Some(a), Converged(inp, inp.install.value, a, n)), Applied, Complete)
  {
    ComparedCases(START, inp, inp.install.value, n, a, Flags(EVERYTHING), NO_FAULTS);
  }

  // ---------------------------------------------------------------- samples that differ

  lemma OneOptionDiffers(a: File, b: File, s: Section, k: Key)
    requires s in NCP_SECTIONS && !Immutable(s, k) && b.Lookup(s, k) != a.Lookup(s, k)
    requires !ImmutableDiffers(b, a)
    ensures var v := Decision(Text(b, ""), Some(Text(a, ""))); v.Flags? && v.change != NOTHING
  {
    assert OptionDiffers(b, a, s, k);
    assert SectionDiffers(b, a, s);
    assert NcpNeeded(b, a);
  }

  lemma RenderingDiffers(a: File, b: File, sections: seq<Section>, s: Section, k: Key)
    requires s in sections && !Immutable(s, k) && b.Lookup(s, k) != a.Lookup(s, k)
    ensures !SameOptions(Project(b, sections), Project(a, sections))
  {
    ProjectedOption(a, sections, s, k);
    ProjectedOption(b, sections, s, k);
  }

  lemma SameImmutableSamples(a: File, b: File, x: Params, y: Params)
    requires IsSample(a, x) && IsSample(b, y) && x.cluster == y.cluster && x.scaling == y.scaling
    ensures !ImmutableDiffers(b, a)
  {
    SampleImmutable(a, x);
    SampleImmutable(b, y);
  }

  lemma ManagersDiffer(a: File, b: File, x: Params, y: Params)
    requires IsSample(a, x) && IsSample(b, y) && y == x.(managers := y.managers) && x.managers != y.managers
    ensures var v := Decision(Text(b, ""), Some(Text(a, ""))); v.Flags? && v.change != NOTHING
    ensures !SameOptions(Project(b, NCP_SECTIONS), Project(a, NCP_SECTIONS))
  {
    SameImmutableSamples(a, b, x, y);
    assert b.Lookup(NsxV3, NsxApiManagers) == Some(y.managers) && a.Lookup(NsxV3, NsxApiManagers) == Some(x.managers);
    OneOptionDiffers(a, b, NsxV3, NsxApiManagers);
    RenderingDiffers(a, b, NCP_SECTIONS, NsxV3, NsxApiManagers);
  }

  lemma HostsDiffer(a: File, b: File, x: Params, y: Params)
    requires IsSample(a, x) && IsSample(b, y) && y == x.(host := y.host) && x.host != y.host
    ensures var v := Decision(Text(b, ""), Some(Text(a, ""))); v.Flags? && v.change != NOTHING
    ensures b.Lookup(Section.K8s, ApiserverHostIp) != a.Lookup(Section.K8s, ApiserverHostIp)
  {
    SameImmutableSamples(a, b, x, y);
    OneOptionDiffers(a, b, Section.K8s, ApiserverHostIp);
  }

  lemma HostMattersToAgents(a: File, b: File)
    requires b.Lookup(Section.K8s, ApiserverHostIp) != a.Lookup(Section.K8s, ApiserverHostIp)
    ensures !SameFor(AgentPods, a, b)
  {
    assert Relevant(AgentPods, Section.K8s, ApiserverHostIp);
  }

  lemma SampleKeepsAgent(a: File, b: File, x: Params, y: Params)
    requires IsSample(a, x) && IsSample(b, y) && y == x.(host := y.host)
    ensures KeepsAgentOptions(a, b)
  {
    forall s, k | s in AGENT_SECTIONS && !(s in NCP_SECTIONS && b.HasSection(s))
      ensures Effective(b, s, k) == Effective(a, s, k)
    {
      SampleSameSection(a, b, x, y, s);
      SameContentsSameOption(b, a, s, k);
    }
  }

  lemma SampleSameSection(a: File, b: File, x: Params, y: Params, s: Section)
    requires IsSample(a, x) && IsSample(b, y) && y == x.(host := y.host)
    requires s in AGENT_SECTIONS && s != Section.K8s
    ensures a.Contents(s) == b.Contents(s)
  {
  }

  // ---------------------------------------------------------------- part-way applies

  /** The NSX managers are changed, the apply stops before the Deployment, and the change is reverted.  Every
      configuration is valid, the last call succeeds, and nsx-ncp-config still holds the other managers. */
  lemma StaleAfterRevert()
    ensures var first := Reconciled(START, Plain(BASE), NO_FAULTS);
            var partial := Reconciled(first.state, Plain(OTHER_MANAGERS), NO_FAULTS.(applyAt := Some(4)));
            var revert := Reconciled(partial.state, Plain(BASE), NO_FAULTS);
            && first.outcome.Applied? && partial.extent.PartWay? && revert.outcome.NoChange?
            && !InSync(revert.state.cluster, Sample(BASE))
  {
    SampleInstance(BASE, "img", PLAIN);
    SampleInstance(OTHER_MANAGERS, "img", PLAIN);
    ManagersDiffer(Sample(BASE), Sample(OTHER_MANAGERS), BASE, OTHER_MANAGERS);
    RevertRun(Plain(BASE), Plain(OTHER_MANAGERS), Doc(BASE), Doc(OTHER_MANAGERS));
  }

  lemma RevertRun(inpA: Inputs, inpB: Inputs, a: Document, b: Document)
    requires TwoConfigs(inpA, inpB, a, b, 1, 1) && Settles(inpA, inpA.install.value)
    requires Decision(b, Some(a)).Flags? && Decision(b, Some(a)).change != NOTHING
    requires !SameOptions(Project(b.file, NCP_SECTIONS), Project(a.file, NCP_SECTIONS))
    ensures var first := ReconciledWith(START, inpA, Some(a), NO_FAULTS);
            var partial := ReconciledWith(first.state, inpB, Some(b), NO_FAULTS.(applyAt := Some(4)));
            var revert := ReconciledWith(partial.state, inpA, Some(a), NO_FAULTS);
            && first.outcome.Applied? && partial.extent.PartWay? && revert.outcome.NoChange?
            && !InSync(revert.state.cluster, a.file)
  {
    FirstApplies(inpA, a, 1);
    RevertAfterPartialApply(inpA, inpB, a, b, 1, 1, 4);
  }

  /** The API server address is changed, the apply stops before the Deployment, the operator is restarted, and the same
      configuration is reconciled again.  That call succeeds, and nsx-node-agent-config still holds the old address. */
  lemma StaleAfterRestart()
    ensures var first := Reconciled(START, Plain(BASE), NO_FAULTS);
            var partial := Reconciled(first.state, Plain(OTHER_HOST), NO_FAULTS.(applyAt := Some(4)));
            var restarted := Next(World(partial.state, true), Restart).state;
            var again := Reconciled(restarted, Plain(OTHER_HOST), NO_FAULTS);
            && first.outcome.Applied? && partial.extent.PartWay? && again.outcome.NoChange?
            && !InSync(again.state.cluster, Sample(OTHER_HOST))
  {
    SampleInstance(BASE, "img", PLAIN);
    SampleInstance(OTHER_HOST, "img", PLAIN);
    HostsDiffer(Sample(BASE), Sample(OTHER_HOST), BASE, OTHER_HOST);
    SampleKeepsAgent(Sample(BASE), Sample(OTHER_HOST), BASE, OTHER_HOST);
    RestartRun(Plain(BASE), Plain(OTHER_HOST), Doc(BASE), Doc(OTHER_HOST));
  }

  lemma RestartRun(inpA: Inputs, inpB: Inputs, a: Document, b: Document)
    requires TwoConfigs(inpA, inpB, a, b, 1, 1) && Settles(inpA, inpA.install.value)
    requires Decision(b, Some(a)).Flags? && Decision(b, Some(a)).change != NOTHING
    requires KeepsAgentOptions(a.file, b.file)
    requires b.file.Lookup(Section.K8s, ApiserverHostIp) != a.file.Lookup(Section.K8s, ApiserverHostIp)
    ensures var first := ReconciledWith(START, inpA, Some(a), NO_FAULTS);
            var partial := ReconciledWith(first.state, inpB, Some(b), NO_FAULTS.(applyAt := Some(4)));
            var again := ReconciledWith(Next(World(partial.state, true), Restart).state, inpB, Some(b), NO_FAULTS);
            && first.outcome.Applied? && partial.extent.PartWay? && again.outcome.NoChange?
            && !InSync(again.state.cluster, b.file)
  {
    FirstApplies(inpA, a, 1);
    PartialApplyIs(inpA, inpB, a, b, 1, 1, 4);
    RenderingDiffers(b.file, a.file, AGENT_SECTIONS, Section.K8s, ApiserverHostIp);
    ResubmitAfterRestart(inpA, inpB, a, b, 1, 1, 4);
  }

  // ---------------------------------------------------------------- immutable options

  /** The cluster name is changed across a restart, and one of the two reads after it fails: the change is applied. */
  lemma ImmutableLostAfterRestart()
    ensures var first := Reconciled(START, Plain(BASE), NO_FAULTS);
            var restarted := State(None, first.state.cluster);
            var second := Reconciled(restarted, Plain(OTHER_CLUSTER), NO_FAULTS.(ncpConfig := true));
            && first.state.applied == Some(Doc(BASE)) && second.outcome.Applied?
            && second.state.applied == Some(Doc(OTHER_CLUSTER))
            && Sample(BASE).Value(Coe, ClusterName) == "c" && Sample(OTHER_CLUSTER).Value(Coe, ClusterName) == "d"
  {
    SampleInstance(BASE, "img", PLAIN);
    SampleInstance(OTHER_CLUSTER, "img", PLAIN);
    SampleImmutable(Sample(BASE), BASE);
    SampleImmutable(Sample(OTHER_CLUSTER), OTHER_CLUSTER);
    ImmutableRun(Plain(BASE), Plain(OTHER_CLUSTER), Doc(BASE), Doc(OTHER_CLUSTER), true);
  }

  /** The same without any failing call, when somebody has deleted nsx-node-agent-config. */
  lemma ImmutableLostWithoutConfigMap()
    ensures var first := Reconciled(START, Plain(BASE), NO_FAULTS);
            var restarted := State(None, first.state.cluster.(agentConfig := None));
            var second := Reconciled(restarted, Plain(OTHER_CLUSTER), NO_FAULTS);
            && first.state.applied == Some(Doc(BASE)) && second.outcome.Applied?
            && second.state.applied == Some(Doc(OTHER_CLUSTER))
            && Sample(BASE).Value(Coe, ClusterName) == "c" && Sample(OTHER_CLUSTER).Value(Coe, ClusterName) == "d"
  {
    SampleInstance(BASE, "img", PLAIN);
    SampleInstance(OTHER_CLUSTER, "img", PLAIN);
    SampleImmutable(Sample(BASE), BASE);
    SampleImmutable(Sample(OTHER_CLUSTER), OTHER_CLUSTER);
    ImmutableRun(Plain(BASE), Plain(OTHER_CLUSTER), Doc(BASE), Doc(OTHER_CLUSTER), false);
  }

  lemma ImmutableRun(inpA: Inputs, inpB: Inputs, a: Document, b: Document, readFails: bool)
    requires TwoConfigs(inpA, inpB, a, b, 1, 1) && ImmutableDiffers(b.file, a.file)
    ensures var first := ReconciledWith(START, inpA, Some(a), NO_FAULTS);
            var c := first.state.cluster;
            var there := if readFails then c else c.(agentConfig := None);
            var second := ReconciledWith(State(None, there), inpB, Some(b), NO_FAULTS.(ncpConfig := readFails));
            && first.state.applied == Some(a)
            && second.outcome.Applied? && second.state.applied == Some(b)
  {
    FirstApplies(inpA, a, 1);
    var c := Converged(inpA, inpA.install.value, a, 1);
    var there := if readFails then c else c.(agentConfig := None);
    RecoveredRendersAlike(a.file);
    SameImmutable(Recover(Project(a.file, NCP_SECTIONS), Project(a.file, AGENT_SECTIONS)), a.file);
    RestartGuardsImmutableExactly(State(None, there), inpB, b, readFails, false);
  }

  // ---------------------------------------------------------------- applying again and again

  /** Without NCP_IMAGE a second Reconcile of the same inputs applies everything again. */
  lemma AppliesAgainWithoutImage()
    ensures var inp := Submitting(Sample(BASE), "", PLAIN);
            var first := Reconciled(START, inp, NO_FAULTS);
            first.outcome.Applied? && Reconciled(first.state, inp, NO_FAULTS).outcome.Applied?
  {
    SampleInstance(BASE, "", PLAIN);
    AgainRun(Submitting(Sample(BASE), "", PLAIN), Doc(BASE));
  }

  /** The same with an image, when ncp-install says `tolerations: []` for nsx-ncp. */
  lemma AppliesAgainWithEmptyTolerations()
    ensures var inp := Submitting(Sample(BASE), "img", PLAIN.(ncpTolerations := Some([])));
            var first := Reconciled(START, inp, NO_FAULTS);
            first.outcome.Applied? && Reconciled(first.state, inp, NO_FAULTS).outcome.Applied?
  {
    var install := PLAIN.(ncpTolerations := Some([]));
    SampleInstance(BASE, "img", install);
    AgainRun(Submitting(Sample(BASE), "img", install), Doc(BASE));
  }

  lemma AgainRun(inp: Inputs, a: Document)
    requires a.Text? && inp.install.Some? && inp.config.Some? && NetworkOf(inp).Some?
    requires ClampedReplicas(a.file, inp.install.value.replicas).Some? && !Settles(inp, inp.install.value)
    ensures var first := ReconciledWith(START, inp, Some(a), NO_FAULTS);
            first.outcome.Applied? && ReconciledWith(first.state, inp, Some(a), NO_FAULTS).outcome.Applied?
  {
    FirstApplies(inp, a, ClampedReplicas(a.file, inp.install.value.replicas).value);
    ConvergesExactly(START, inp, Some(a), NO_FAULTS);
  }

  // ---------------------------------------------------------------- never succeeding again

  /** nsx-ncp-config does not load when the operator starts; somebody restores both ConfigMaps, and still every later
      Reconcile of the valid configuration fails. */
  lemma StuckAfterMalformed()
    ensures var broken := START.cluster.(ncpConfig := Some(Malformed("[")),
                                         agentConfig := Some(AgentDocument(Sample(BASE))));
            var first := Reconciled(State(None, broken), Plain(BASE), NO_FAULTS);
            var repaired := State(first.state.applied, broken.(ncpConfig := Some(NcpDocument(Sample(BASE)))));
            && first.outcome.Failed? && RenderedFrom(repaired.cluster, Sample(BASE))
            && !Succeeds(repaired, Plain(BASE), NO_FAULTS)
  {
    var broken := START.cluster.(ncpConfig := Some(Malformed("[")), agentConfig := Some(AgentDocument(Sample(BASE))));
    SampleInstance(BASE, "img", PLAIN);
    MalformedRun(Plain(BASE), broken, broken.(ncpConfig := Some(NcpDocument(Sample(BASE)))));
  }

  lemma MalformedRun(inp: Inputs, broken: Cluster, repaired: Cluster)
    requires inp.install.Some? && Instance(inp).Some?
    requires ClampedReplicas(Instance(inp).value.file, inp.install.value.replicas).Some?
    requires broken.ncpConfig.Some? && broken.ncpConfig.value.Malformed? && broken.agentConfig.Some?
    ensures var first := Reconciled(State(None, broken), inp, NO_FAULTS);
            first.outcome.Failed? && !Succeeds(State(first.state.applied, repaired), inp, NO_FAULTS)
  {
    MalformedRemembersEmpty(State(None, broken), inp, NO_FAULTS);
    assert EMPTY_FILE.Value(Coe, ClusterName) == "";
    StuckStep(State(Some(EMPTY_DOCUMENT), repaired), inp, NO_FAULTS);
  }

  /** Two ConfigMaps that load but have no cluster name. */
  const NO_NAME := IniFile([DEFAULT, NsxV3], map[DEFAULT := map[], NsxV3 := map[NsxApiManagers := "m"]])

  /** With them in the cluster no Reconcile ever succeeds, however often the operator is restarted. */
  lemma StuckWithoutClusterName(events: seq<Event>, inp: Inputs)
    requires forall e :: e in events ==> e.Restart? || (e.Reconcile? && !e.fl.ncpConfig && !e.fl.agentConfig)
    ensures var c := START.cluster.(ncpConfig := Some(Text(NO_NAME, "")), agentConfig := Some(Text(EMPTY_FILE, "")));
            !Succeeds(Run(World(State(None, c), true), events).state, inp, NO_FAULTS)
  {
    var c := START.cluster.(ncpConfig := Some(Text(NO_NAME, "")), agentConfig := Some(Text(EMPTY_FILE, "")));
    NoNameRecovered();
    StuckAcrossRestarts(World(State(None, c), true), events);
  }

  lemma NoNameRecovered()
    ensures Recover(NO_NAME, EMPTY_FILE).Value(Coe, ClusterName) == ""
  {
    assert NO_NAME.Contents(Coe) == map[] && EMPTY_FILE.Contents(Coe) == map[];
    RecoveredOption(NO_NAME, EMPTY_FILE, Coe, ClusterName);
  }

  // ---------------------------------------------------------------- what is not looked at

  /** Somebody edits the nsx-ncp-bootstrap DaemonSet; the next Reconcile reports no change and leaves the edit. */
  lemma BootstrapEditUnnoticed()
    ensures var first := Reconciled(START, Plain(BASE), NO_FAULTS);
            var edited := State(first.state.applied, first.state.cluster.(bootstrapDs := Some(["x"])));
            && first.outcome.Applied?
            && Reconciled(edited, Plain(BASE), NO_FAULTS) == Step(edited, NoChange, NotStarted)
            && !AsRendered(edited.cluster, Sample(BASE), Plain(BASE), PLAIN, 1)
  {
    SampleInstance(BASE, "img", PLAIN);
    EditedRun(Plain(BASE), PLAIN, Doc(BASE), 1);
  }

  lemma EditedRun(inp: Inputs, install: Install, a: Document, n: int)
    requires a.Text? && inp.install == Some(install) && inp.config.Some? && NetworkOf(inp).Some?
    requires ClampedReplicas(a.file, install.replicas) == Some(n) && Settles(inp, install)
    requires StoredTolerations(install.agentTolerations) != ["x"]
    ensures var first := ReconciledWith(START, inp, Some(a), NO_FAULTS);
            var s := State(first.state.applied, first.state.cluster.(bootstrapDs := Some(["x"])));
            && first.outcome.Applied? && ReconciledWith(s, inp, Some(a), NO_FAULTS) == Step(s, NoChange, NotStarted)
            && !AsRendered(s.cluster, a.file, inp, install, n)
  {
    FirstApplies(inp, a, n);
    var c := Converged(inp, install, a, n).(bootstrapDs := Some(["x"]));
    RenderedCompares(inp, install, n, c);
    ReconciledIs(State(Some(a), c), inp, a, n, Some(a), true, Flags(NOTHING), NO_FAULTS);
  }

  // ---------------------------------------------------------------- pods that are not restarted

  const NO_PODS := Started(Running(None, false), Running(None, false), Running(None, false))

  /** The first Reconcile of a configuration starts all pods. */
  ghost function FirstPods(inp: Inputs, a: Document): Started
    requires a.Text?
  {
    ReconciledStarts(START, NO_PODS, inp, Some(a), NO_FAULTS)
  }

  lemma FirstStarts(inp: Inputs, a: Document, n: int, w: Pods)
    requires a.Text? && inp.install.Some? && inp.config.Some? && NetworkOf(inp).Some?
    requires ClampedReplicas(a.file, inp.install.value.replicas) == Some(n)
    ensures Fresh(FirstPods(inp, a), w, a.file) && !RunningOf(FirstPods(inp, a), w).stamped
  {
    var install, v := inp.install.value, Flags(EVERYTHING);
    var objs := RenderedObjects(NcpDocument(a.file), AgentDocument(a.file), inp, install, n);
    ComparedCases(START, inp, install, n, a, v, NO_FAULTS);
    StartsAre(START, NO_PODS, inp, a, n, None, true, v, NO_FAULTS);
    FirstIsFresh(START, NO_PODS, inp, install, n, a, v, NO_FAULTS, w);
    StartsExactly(START.cluster, NO_PODS, objs, a.file, inp, install, n, NOTHING, |objs|, w);
  }

  /** The API server address is changed, the apply stops before the nsx-ncp-bootstrap DaemonSet, and the operator is
      restarted.  The next Reconcile reports no change, and the nsx-node-agent pods never learn the new address. */
  lemma NotRestartedAfterStop()
    ensures var s := State(Some(Doc(BASE)), Converged(Plain(BASE), PLAIN, Doc(BASE), 1));
            var fl := NO_FAULTS.(applyAt := Some(6));
            var instance := Some(Doc(OTHER_HOST));
            var pods := FirstPods(Plain(BASE), Doc(BASE));
            var partial := ReconciledStarts(s, pods, Plain(OTHER_HOST), instance, fl);
            var restarted := State(None, Reconciled(s, Plain(OTHER_HOST), fl).state.cluster);
            var after := ReconciledStarts(restarted, partial, Plain(OTHER_HOST), instance, NO_FAULTS);
            && Reconciled(START, Plain(BASE), NO_FAULTS).state == s && Instance(Plain(OTHER_HOST)) == instance
            && Reconciled(restarted, Plain(OTHER_HOST), NO_FAULTS).outcome.NoChange?
            && !Fresh(after, AgentPods, Sample(OTHER_HOST))
  {
    SampleInstance(BASE, "img", PLAIN);
    SampleInstance(OTHER_HOST, "img", PLAIN);
    HostsDiffer(Sample(BASE), Sample(OTHER_HOST), BASE, OTHER_HOST);
    HostMattersToAgents(Sample(BASE), Sample(OTHER_HOST));
    StoppedRun(Plain(BASE), Plain(OTHER_HOST), Doc(BASE), Doc(OTHER_HOST));
  }

  lemma StoppedRun(inpA: Inputs, inpB: Inputs, a: Document, b: Document)
    requires TwoConfigs(inpA, inpB, a, b, 1, 1) && Settles(inpA, inpA.install.value)
    requires Decision(b, Some(a)).Flags? && Decision(b, Some(a)).change != NOTHING
    requires !SameFor(AgentPods, a.file, b.file)
    ensures var s := State(Some(a), Converged(inpA, inpA.install.value, a, 1));
            var fl := NO_FAULTS.(applyAt := Some(6));
            var restarted := State(None, ReconciledWith(s, inpB, Some(b), fl).state.cluster);
            var partial := ReconciledStarts(s, FirstPods(inpA, a), inpB, Some(b), fl);
            && ReconciledWith(START, inpA, Some(a), NO_FAULTS).state == s
            && ReconciledWith(restarted, inpB, Some(b), NO_FAULTS).outcome.NoChange?
            && !Fresh(ReconciledStarts(restarted, partial, inpB, Some(b), NO_FAULTS), AgentPods, b.file)
  {
    FirstApplies(inpA, a, 1);
    FirstStarts(inpA, a, 1, AgentPods);
    NotRestartedExactly(inpA, inpB, a, b, 1, 1, 6, FirstPods(inpA, a), AgentPods);
  }

  /** The operator is restarted, the API server address is changed, and the first Reconcile cannot read nsx-ncp-config:
      it applies everything and restarts nothing. */
  lemma NotRestartedAfterFailedRead()
    ensures var c := Converged(Plain(BASE), PLAIN, Doc(BASE), 1);
            var fl := NO_FAULTS.(ncpConfig := true);
            var pods := FirstPods(Plain(BASE), Doc(BASE));
            var after := ReconciledStarts(State(None, c), pods, Plain(OTHER_HOST), Some(Doc(OTHER_HOST)), fl);
            && Reconciled(START, Plain(BASE), NO_FAULTS).state.cluster == c
            && Instance(Plain(OTHER_HOST)) == Some(Doc(OTHER_HOST))
            && Reconciled(State(None, c), Plain(OTHER_HOST), fl).outcome.Applied?
            && !Fresh(after, AgentPods, Sample(OTHER_HOST))
  {
    SampleInstance(BASE, "img", PLAIN);
    SampleInstance(OTHER_HOST, "img", PLAIN);
    HostsDiffer(Sample(BASE), Sample(OTHER_HOST), BASE, OTHER_HOST);
    HostMattersToAgents(Sample(BASE), Sample(OTHER_HOST));
    FailedReadRun(Plain(BASE), Plain(OTHER_HOST), Doc(BASE), Doc(OTHER_HOST));
  }

  lemma FailedReadRun(inpA: Inputs, inpB: Inputs, a: Document, b: Document)
    requires TwoConfigs(inpA, inpB, a, b, 1, 1)
    requires !SameFor(AgentPods, a.file, b.file)
    ensures var s := State(None, Converged(inpA, inpA.install.value, a, 1));
            var fl := NO_FAULTS.(ncpConfig := true);
            && ReconciledWith(START, inpA, Some(a), NO_FAULTS).state.cluster == s.cluster
            && ReconciledWith(s, inpB, Some(b), fl).outcome.Applied?
            && !Fresh(ReconciledStarts(s, FirstPods(inpA, a), inpB, Some(b), fl), AgentPods, b.file)
  {
    var st := FirstPods(inpA, a);
    FirstApplies(inpA, a, 1);
    FirstStarts(inpA, a, 1, AgentPods);
    var s, fl := State(None, Converged(inpA, inpA.install.value, a, 1)), NO_FAULTS.(ncpConfig := true);
    ReconciledIs(s, inpB, b, 1, None, true, Flags(EVERYTHING), fl);
    StartsAre(s, st, inpB, b, 1, None, true, Flags(EVERYTHING), fl);
    ComparedCases(s, inpB, inpB.install.value, 1, b, Flags(EVERYTHING), fl);
    MissedExactly(s, st, inpB, inpB.install.value, 1, b, Flags(EVERYTHING), fl, AgentPods, a.file);
  }
}
