/** Apply loops of the ConfigMap controller that stop part-way, for every configuration and every stopping point:
    what a later revert, or a restart and the same configuration again, makes of them. */
module PartialApply {
  import opened Common
  import opened Names
  import opened Ini
  import opened ConfigDiff
  import opened Projection
  import opened Pipeline
  import opened Reconciler
  import opened ConfigRuns

  // ---------------------------------------------------------------- stopping part-way

  /** What is there after an apply of `b` to a cluster rendered from `a` that stops before the `k`-th object. */
  ghost function StoppedCluster(c: Cluster, k: nat, ncp: Document, agent: Document, deployment: Deployment): Cluster {
    c.(ncpConfig := if k >= 4 then Some(ncp) else c.ncpConfig,
       deployment := if k >= 5 then Some(deployment) else c.deployment,
       agentConfig := if k >= 6 then Some(agent) else c.agentConfig)
  }

  lemma StoppedAt(c: Cluster, objs: seq<Object>, k: nat, ncp: Document, agent: Document, deployment: Deployment)
    requires k < |objs| && 8 <= |objs| <= 9 && (|objs| == 9 ==> objs[8].UnwatchedObject?)
    requires objs[0].UnwatchedObject?
    requires objs[1].NsxSecretObject? && c.nsxSecret == Some(objs[1].secret)
    requires objs[2].LbSecretObject? && c.lbSecret == Some(objs[2].secret)
    requires objs[3] == NcpConfigObject(ncp) && objs[4] == DeploymentObject(deployment)
    requires objs[5] == AgentConfigObject(agent)
    requires objs[6].BootstrapObject? && c.bootstrapDs == Some(objs[6].tolerations)
    requires objs[7].AgentObject? && c.agentDs == Some(objs[7].tolerations)
    ensures ApplyUpTo(c, objs, k) == StoppedCluster(c, k, ncp, agent, deployment)
  {
    if k > 0 {
      StoppedAt(c, objs, k - 1, ncp, agent, deployment);
    }
  }

  /** A cluster that shows `a`, with nothing else left to apply. */
  ghost function Converged(inp: Inputs, install: Install, a: Document, replicas: int): Cluster
    requires a.Text?
  {
    RenderedCluster(NcpDocument(a.file), AgentDocument(a.file), inp, install, replicas)
  }

  /** The number of rendered objects. */
  function ObjectCount(p: Platform): nat { if p.OpenShift? then 9 else 8 }

  ghost function Stopped(inp: Inputs, install: Install, a: Document, b: Document, na: int, nb: int, k: nat): Cluster
    requires a.Text? && b.Text?
  {
    StoppedCluster(Converged(inp, install, a, na), k, NcpDocument(b.file), AgentDocument(b.file),
                   RenderedDeployment(inp, install, nb))
  }

  lemma StopPartWay(s: State, inp: Inputs, install: Install, a: Document, na: int, b: Document, nb: int, v: Verdict,
                    k: nat)
    requires a.Text? && b.Text? && v.Flags? && v.change != NOTHING && k < ObjectCount(inp.platform)
    requires s.cluster == Converged(inp, install, a, na)
    ensures Compared(s, inp, install, nb, b, v, NO_FAULTS.(applyAt := Some(k))) ==
            Step(State(s.applied, Stopped(inp, install, a, b, na, nb, k)), Failed, PartWay)
  {
    StoppedIs(inp, install, a, na, b, nb, k);
  }

  lemma StoppedIs(inp: Inputs, install: Install, a: Document, na: int, b: Document, nb: int, k: nat)
    requires a.Text? && b.Text? && k < ObjectCount(inp.platform)
    ensures var objs := RenderedObjects(NcpDocument(b.file), AgentDocument(b.file), inp, install, nb);
            && |objs| == ObjectCount(inp.platform)
            && ApplyUpTo(Converged(inp, install, a, na), objs, k) == Stopped(inp, install, a, b, na, nb, k)
  {
    var objs := RenderedObjects(NcpDocument(b.file), AgentDocument(b.file), inp, install, nb);
    ObjectsAre(objs, NcpDocument(b.file), AgentDocument(b.file), inp, install, nb);
    StoppedWith(Converged(inp, install, a, na), objs, k, NcpDocument(b.file), AgentDocument(b.file), inp, install, nb);
  }

  lemma ObjectsAre(objs: seq<Object>, ncp: Document, agent: Document, inp: Inputs, install: Install, n: int)
    requires objs == RenderedObjects(ncp, agent, inp, install, n)
    ensures |objs| == ObjectCount(inp.platform) && (|objs| == 9 ==> objs[8].UnwatchedObject?)
    ensures objs[0].UnwatchedObject? && objs[1] == NsxSecretObject(RenderedNsx(inp.nsxSecret))
    ensures objs[2] == LbSecretObject(RenderedLb(inp.lbSecret)) && objs[3] == NcpConfigObject(ncp)
    ensures objs[4] == DeploymentObject(RenderedDeployment(inp, install, n)) && objs[5] == AgentConfigObject(agent)
    ensures objs[6] == BootstrapObject(StoredTolerations(install.agentTolerations))
    ensures objs[7] == AgentObject(StoredTolerations(install.agentTolerations))
  {
  }

  lemma StoppedWith(c: Cluster, objs: seq<Object>, k: nat, ncp: Document, agent: Document, inp: Inputs,
                    install: Install, n: int)
    requires k < |objs| && 8 <= |objs| <= 9 && (|objs| == 9 ==> objs[8].UnwatchedObject?)
    requires objs[0].UnwatchedObject? && objs[1] == NsxSecretObject(RenderedNsx(inp.nsxSecret))
    requires objs[2] == LbSecretObject(RenderedLb(inp.lbSecret)) && objs[3] == NcpConfigObject(ncp)
    requires objs[4] == DeploymentObject(RenderedDeployment(inp, install, n)) && objs[5] == AgentConfigObject(agent)
    requires objs[6] == BootstrapObject(StoredTolerations(install.agentTolerations))
    requires objs[7] == AgentObject(StoredTolerations(install.agentTolerations))
    requires c.nsxSecret == Some(RenderedNsx(inp.nsxSecret)) && c.lbSecret == Some(RenderedLb(inp.lbSecret))
    requires c.bootstrapDs == c.agentDs == Some(StoredTolerations(install.agentTolerations))
    ensures ApplyUpTo(c, objs, k) == StoppedCluster(c, k, ncp, agent, RenderedDeployment(inp, install, n))
  {
    StoppedAt(c, objs, k, ncp, agent, RenderedDeployment(inp, install, n));
  }

  /** Comparing `doc` with a part-way cluster when no flag is raised: only the Deployment can give it away, or inputs
      that never settle. */
  lemma ComparedPartWay(applied: Option<Document>, inp: Inputs, install: Install, a: Document, b: Document,
                        na: int, nb: int, k: nat, doc: Document, n: int, v: Verdict)
    requires a.Text? && b.Text? && doc.Text? && v.Flags?
    ensures var s := State(applied, Stopped(inp, install, a, b, na, nb, k));
            var r := Compared(s, inp, install, n, doc, v, NO_FAULTS);
            if v.change == NOTHING && (if k >= 5 then nb else na) == n && Settles(inp, install)
            then r == Step(s, NoChange, NotStarted)
            else r.outcome.Applied? && r.state == State(Some(doc), Converged(inp, install, doc, n))
  {
    var s := State(applied, Stopped(inp, install, a, b, na, nb, k));
    PartWayCompares(s.cluster, inp, install, if k >= 5 then nb else na, n);
    ComparedCases(s, inp, install, n, doc, v, NO_FAULTS);
  }

  lemma PartWayCompares(c: Cluster, inp: Inputs, install: Install, there: int, n: int)
    requires c.nsxSecret == Some(RenderedNsx(inp.nsxSecret)) && c.lbSecret == Some(RenderedLb(inp.lbSecret))
    requires c.deployment == Some(RenderedDeployment(inp, install, there))
    requires c.bootstrapDs.Some? && c.agentDs == Some(StoredTolerations(install.agentTolerations))
    ensures ApplyDue(c, inp, install, n, NOTHING) <==> there != n || !Settles(inp, install)
  {
    RenderedCompares(inp, install, there, c);
  }

  /** The hypotheses of the runs below: `inpA` and `inpB` submit two configurations that prepare to `a` and `b`. */
  ghost predicate TwoConfigs(inpA: Inputs, inpB: Inputs, a: Document, b: Document, na: int, nb: int) {
    && a.Text? && b.Text? && inpB == inpA.(config := inpB.config)
    && inpA.install.Some? && inpA.config.Some? && inpB.config.Some? && NetworkOf(inpA).Some?
    && ClampedReplicas(a.file, inpA.install.value.replicas) == Some(na)
    && ClampedReplicas(b.file, inpA.install.value.replicas) == Some(nb)
  }

  lemma PartialApplyIs(inpA: Inputs, inpB: Inputs, a: Document, b: Document, na: int, nb: int, k: nat)
    requires TwoConfigs(inpA, inpB, a, b, na, nb) && k < ObjectCount(inpA.platform)
    requires Decision(b, Some(a)).Flags? && Decision(b, Some(a)).change != NOTHING
    ensures var install := inpA.install.value;
            ReconciledWith(State(Some(a), Converged(inpA, install, a, na)), inpB, Some(b),
                           NO_FAULTS.(applyAt := Some(k))) ==
            Step(State(Some(a), Stopped(inpA, install, a, b, na, nb, k)), Failed, PartWay)
  {
    var install := inpA.install.value;
    var s := State(Some(a), Converged(inpA, install, a, na));
    assert Converged(inpA, install, a, na) == Converged(inpB, install, a, na);
    StopPartWay(s, inpB, install, a, na, b, nb, Decision(b, Some(a)), k);
  }

  lemma PartWayShows(inp: Inputs, install: Install, a: Document, b: Document, na: int, nb: int, k: nat, f: File)
    requires a.Text? && b.Text?
    ensures InSync(Stopped(inp, install, a, b, na, nb, k), f) <==>
            && SameOptions(Project(if k >= 4 then b.file else a.file, NCP_SECTIONS), Project(f, NCP_SECTIONS))
            && SameOptions(Project(if k >= 6 then b.file else a.file, AGENT_SECTIONS), Project(f, AGENT_SECTIONS))
  {
  }

  /** From a converged cluster for `a`, an apply of `b` that stops before any object `k`, then `a` again.  The second
      call reports no change unless the Deployment has new replicas or the inputs never settle, and then the ConfigMaps
      are right exactly when those already applied did not differ. */
  lemma RevertAfterPartialApply(inpA: Inputs, inpB: Inputs, a: Document, b: Document, na: int, nb: int, k: nat)
    requires TwoConfigs(inpA, inpB, a, b, na, nb) && k < ObjectCount(inpA.platform)
    requires Decision(b, Some(a)).Flags? && Decision(b, Some(a)).change != NOTHING
    ensures var s := State(Some(a), Converged(inpA, inpA.install.value, a, na));
            var partial := ReconciledWith(s, inpB, Some(b), NO_FAULTS.(applyAt := Some(k)));
            var revert := ReconciledWith(partial.state, inpA, Some(a), NO_FAULTS);
            && partial.outcome.Failed? && partial.extent.PartWay?
            && (revert.outcome.NoChange? <==> (k < 5 || na == nb) && Settles(inpA, inpA.install.value))
            && (revert.outcome.Applied? <==> !revert.outcome.NoChange?)
            && (InSync(revert.state.cluster, a.file) <==>
                || revert.outcome.Applied?
                || ((k >= 4 ==> SameOptions(Project(b.file, NCP_SECTIONS), Project(a.file, NCP_SECTIONS))) &&
                    (k >= 6 ==> SameOptions(Project(b.file, AGENT_SECTIONS), Project(a.file, AGENT_SECTIONS)))))
  {
    var install := inpA.install.value;
    PartialApplyIs(inpA, inpB, a, b, na, nb, k);
    ComparedPartWay(Some(a), inpA, install, a, b, na, nb, k, a, na, Flags(NOTHING));
    PartWayShows(inpA, install, a, b, na, nb, k, a.file);
    RenderedAlike(Converged(inpA, install, a, na), a.file, a.file);
  }

  // ---------------------------------------------------------------- stopping part-way and restarting

  /** `b` keeps what recovering takes from the old nsx-node-agent ConfigMap. */
  ghost predicate KeepsAgentOptions(a: File, b: File) {
    forall s, k :: s in AGENT_SECTIONS && !(s in NCP_SECTIONS && b.HasSection(s)) ==>
      Effective(b, s, k) == Effective(a, s, k)
  }

  lemma MixedOption(a: File, b: File, s: Section, k: Key)
    requires s in OPERATOR_SECTIONS
    ensures Effective(Recover(Project(b, NCP_SECTIONS), Project(a, AGENT_SECTIONS)), s, k) ==
            if s in NCP_SECTIONS && b.HasSection(s) then Effective(b, s, k)
            else if s in AGENT_SECTIONS then Effective(a, s, k)
            else Blank(s, k)
  {
    var ncp, agent := Project(b, NCP_SECTIONS), Project(a, AGENT_SECTIONS);
    RecoveredOption(ncp, agent, s, k);
    ProjectExactly(b, NCP_SECTIONS, s);
    ProjectedOption(b, NCP_SECTIONS, s, k);
    ProjectedOption(a, AGENT_SECTIONS, s, k);
    if s == DEFAULT {
      assert b.HasSection(s);
    }
  }

  /** What is recovered from the new nsx-ncp and the old nsx-node-agent ConfigMap renders like `b` exactly when `b`
      keeps those options. */
  lemma MixedExactly(a: File, b: File)
    ensures SameOperatorOptions(b, Recover(Project(b, NCP_SECTIONS), Project(a, AGENT_SECTIONS))) <==>
            KeepsAgentOptions(a, b)
  {
    var mixed := Recover(Project(b, NCP_SECTIONS), Project(a, AGENT_SECTIONS));
    forall s, k | s in OPERATOR_SECTIONS
      ensures Effective(b, s, k) == Effective(mixed, s, k) <==>
              (s in AGENT_SECTIONS && !(s in NCP_SECTIONS && b.HasSection(s)) ==>
                 Effective(b, s, k) == Effective(a, s, k))
    {
      MixedOption(a, b, s, k);
      OperatorSections(s);
      if !b.HasSection(s) {
        MissingOption(b, s, k);
      }
    }
    assert forall s :: s in AGENT_SECTIONS ==> s in OPERATOR_SECTIONS;
  }

  lemma MixedImmutableOption(a: File, b: File, s: Section, k: Key)
    requires Immutable(s, k) && s in OPERATOR_SECTIONS && b.Value(s, k) == a.Value(s, k)
    ensures Effective(Recover(Project(b, NCP_SECTIONS), Project(a, AGENT_SECTIONS)), s, k) == Effective(b, s, k)
  {
    MixedOption(a, b, s, k);
    if !b.HasSection(s) {
      MissingOption(b, s, k);
    }
  }

  lemma SameImmutableOptions(a: File, b: File)
    requires Effective(a, Coe, ClusterName) == Effective(b, Coe, ClusterName)
    requires Effective(a, NsxV3, L4LbAutoScaling) == Effective(b, NsxV3, L4LbAutoScaling)
    ensures !ImmutableDiffers(b, a)
  {
  }

  lemma MixedImmutable(a: File, b: File)
    requires !ImmutableDiffers(b, a)
    ensures !ImmutableDiffers(b, Recover(Project(b, NCP_SECTIONS), Project(a, AGENT_SECTIONS)))
  {
    MixedImmutableOption(a, b, Coe, ClusterName);
    MixedImmutableOption(a, b, NsxV3, L4LbAutoScaling);
    SameImmutableOptions(Recover(Project(b, NCP_SECTIONS), Project(a, AGENT_SECTIONS)), b);
  }

  lemma RecoveredDecision(b: Document, prev: Document)
    requires b.Text? && prev.Text? && !ImmutableDiffers(b.file, prev.file)
    ensures var v := Decision(b, Some(prev));
            v.Flags? && (v.change == NOTHING <==> SameOperatorOptions(b.file, prev.file))
  {
    QuietMeansSameOptions(b.file, prev.file);
  }

  /** What a restarted operator recovers from a part-way cluster, and whether `b` counts as a change to it. */
  lemma RecoveredPartWay(a: Document, b: Document, k: nat)
    requires a.Text? && b.Text? && a != b && Decision(b, Some(a)).Flags? && Decision(b, Some(a)).change != NOTHING
    ensures var v := Decision(b, Some(Text(RecoveredAt(a.file, b.file, k), "")));
            v.Flags? && (v.change == NOTHING <==> k >= 6 || (k >= 4 && KeepsAgentOptions(a.file, b.file)))
  {
    var recovered := RecoveredAt(a.file, b.file, k);
    if k >= 6 {
      RecoveredRendersAlike(b.file);
      SameImmutable(b.file, recovered);
    } else if k >= 4 {
      MixedImmutable(a.file, b.file);
      MixedExactly(a.file, b.file);
    } else {
      RecoveredRendersAlike(a.file);
      SameImmutable(recovered, a.file);
      QuietMeansSameOptions(b.file, a.file);
      if SameOperatorOptions(b.file, recovered) {
        SameOperatorOptionsTransitive(b.file, recovered, a.file);
      }
    }
    RecoveredDecision(b, Text(recovered, ""));
  }

  ghost function RecoveredAt(a: File, b: File, k: nat): File {
    Recover(Project(if k >= 4 then b else a, NCP_SECTIONS), Project(if k >= 6 then b else a, AGENT_SECTIONS))
  }

  /** From a converged cluster for `a`, an apply of `b` that stops before any object `k`, a restart, then `b` again.
      When the inputs settle, the loop stopped between the two ConfigMaps and `b` keeps the options that only
      nsx-node-agent has, the second call reports no change, and the ConfigMaps are right exactly when nsx-node-agent
      had nothing to get. */
  lemma ResubmitAfterRestart(inpA: Inputs, inpB: Inputs, a: Document, b: Document, na: int, nb: int, k: nat)
    requires TwoConfigs(inpA, inpB, a, b, na, nb) && k < ObjectCount(inpA.platform)
    requires Decision(b, Some(a)).Flags? && Decision(b, Some(a)).change != NOTHING
    ensures var s := State(Some(a), Converged(inpA, inpA.install.value, a, na));
            var partial := ReconciledWith(s, inpB, Some(b), NO_FAULTS.(applyAt := Some(k)));
            var again := ReconciledWith(State(None, partial.state.cluster), inpB, Some(b), NO_FAULTS);
            && (again.outcome.NoChange? <==>
                && Settles(inpA, inpA.install.value)
                && (k >= 6 || (k >= 4 && KeepsAgentOptions(a.file, b.file) && (k == 5 || na == nb))))
            && (again.outcome.Applied? <==> !again.outcome.NoChange?)
            && (again.outcome.NoChange? ==>
                (InSync(again.state.cluster, b.file) <==>
                 k >= 6 || SameOptions(Project(a.file, AGENT_SECTIONS), Project(b.file, AGENT_SECTIONS))))
            && (again.outcome.Applied? ==> InSync(again.state.cluster, b.file))
  {
    var install := inpA.install.value;
    var recovered := Some(Text(RecoveredAt(a.file, b.file, k), ""));
    PartialApplyIs(inpA, inpB, a, b, na, nb, k);
    RecoveredPartWay(a, b, k);
    RestartedIs(inpA, inpB, a, b, na, nb, k, recovered, Decision(b, recovered));
    StoppedShows(inpA, install, a, b, na, nb, k);
    RenderedAlike(Converged(inpB, install, b, nb), b.file, b.file);
  }

  lemma StoppedShows(inp: Inputs, install: Install, a: Document, b: Document, na: int, nb: int, k: nat)
    requires a.Text? && b.Text?
    ensures k >= 4 ==>
              (InSync(Stopped(inp, install, a, b, na, nb, k), b.file) <==>
               k >= 6 || SameOptions(Project(a.file, AGENT_SECTIONS), Project(b.file, AGENT_SECTIONS)))
  {
    PartWayShows(inp, install, a, b, na, nb, k, b.file);
  }

  /** The Reconcile after the restart compares with what it recovered. */
  lemma RestartedIs(inpA: Inputs, inpB: Inputs, a: Document, b: Document, na: int, nb: int, k: nat,
                    recovered: Option<Document>, v: Verdict)
    requires TwoConfigs(inpA, inpB, a, b, na, nb)
    requires recovered == Some(Text(RecoveredAt(a.file, b.file, k), "")) && v == Decision(b, recovered) && v.Flags?
    ensures var install := inpA.install.value;
            var s := State(None, Stopped(inpA, install, a, b, na, nb, k));
            var again := ReconciledWith(s, inpB, Some(b), NO_FAULTS);
            if v.change == NOTHING && (k >= 5 || na == nb) && Settles(inpB, install)
            then again == Step(State(recovered, s.cluster), NoChange, NotStarted)
            else again.outcome.Applied? && again.state.cluster == Converged(inpB, install, b, nb)
  {
    var install := inpA.install.value;
    var c := Stopped(inpA, install, a, b, na, nb, k);
    RestartedWith(c, inpB, b, nb, Project(if k >= 4 then b.file else a.file, NCP_SECTIONS),
                  Project(if k >= 6 then b.file else a.file, AGENT_SECTIONS), recovered, v);
    assert c == Stopped(inpB, install, a, b, na, nb, k);
    ComparedPartWay(recovered, inpB, install, a, b, na, nb, k, b, nb, v);
  }

  lemma RestartedWith(c: Cluster, inp: Inputs, b: Document, nb: int, ncp: File, agent: File,
                      recovered: Option<Document>, v: Verdict)
    requires b.Text? && inp.install.Some? && inp.config.Some? && NetworkOf(inp).Some?
    requires ClampedReplicas(b.file, inp.install.value.replicas) == Some(nb)
    requires c.ncpConfig == Some(Text(ncp, "")) && c.agentConfig == Some(Text(agent, ""))
    requires recovered == Some(Text(Recover(ncp, agent), "")) && v == Decision(b, recovered)
    ensures ReconciledWith(State(None, c), inp, Some(b), NO_FAULTS) ==
            Compared(State(recovered, c), inp, inp.install.value, nb, b, v, NO_FAULTS)
  {
    RecoversFrom(c, ncp, agent);
    ReconciledIs(State(None, c), inp, b, nb, recovered, true, v, NO_FAULTS);
  }

  lemma RecoversFrom(c: Cluster, ncp: File, agent: File)
    requires c.ncpConfig == Some(Text(ncp, "")) && c.agentConfig == Some(Text(agent, ""))
    ensures AppliedBefore(State(None, c), NO_FAULTS) == (Some(Text(Recover(ncp, agent), "")), true)
  {
  }

}
