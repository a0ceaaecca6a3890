/** What every run of the ConfigMap controller keeps. */
module ConfigRuns {
  import opened Common
  import opened Names
  import opened Ini
  import opened ConfigDiff
  import opened Projection
  import opened Pipeline
  import opened Reconciler

  // ---------------------------------------------------------------- being in sync

  /** Both ConfigMaps are exactly what rendering `f` gives. */
  ghost predicate RenderedFrom(c: Cluster, f: File) {
    c.ncpConfig == Some(NcpDocument(f)) && c.agentConfig == Some(AgentDocument(f))
  }

  ghost predicate Shows(doc: Option<Document>, f: File) {
    doc.Some? && doc.value.Text? && SameOptions(doc.value.file, f)
  }

  /** Both ConfigMaps have the option values that rendering `f` gives. */
  ghost predicate InSync(c: Cluster, f: File) {
    Shows(c.ncpConfig, Project(f, NCP_SECTIONS)) && Shows(c.agentConfig, Project(f, AGENT_SECTIONS))
  }

  /** The ConfigMaps come from one configuration `f`, which the applied cache represents. */
  ghost predicate TracedTo(s: State, f: File) {
    RenderedFrom(s.cluster, f) && (s.applied.Some? ==> SameOperatorOptions(AppliedFile(s), f))
  }

  /** The applied configuration, which always loads. */
  ghost predicate Loadable(applied: Option<Document>) { applied.Some? ==> applied.value.Text? }

  ghost function AppliedFile(s: State): File {
    if s.applied.Some? && s.applied.value.Text? then s.applied.value.file else EMPTY_FILE
  }

  ghost predicate Consistent(s: State) {
    || (s.applied.None? && s.cluster.ncpConfig.None? && s.cluster.agentConfig.None?)
    || exists f: File :: TracedTo(s, f)
  }

  lemma SameOperatorOptionsTransitive(a: File, b: File, c: File)
    requires SameOperatorOptions(a, b) && SameOperatorOptions(b, c)
    ensures SameOperatorOptions(a, c)
  {
    forall s, k | s in OPERATOR_SECTIONS ensures Effective(a, s, k) == Effective(c, s, k) {
      assert Effective(a, s, k) == Effective(b, s, k) == Effective(c, s, k);
    }
  }

  lemma RenderedAlike(c: Cluster, f: File, g: File)
    requires RenderedFrom(c, f) && SameOperatorOptions(g, f)
    ensures InSync(c, g)
  {
    SameProjections(f, g);
  }

  /** Replacing the configuration by one that renders alike does not change who is in sync. */
  lemma InSyncCongruent(c: Cluster, f: File, g: File)
    requires SameOperatorOptions(f, g) && InSync(c, f)
    ensures InSync(c, g)
  {
    SameProjections(f, g);
    ShowsCongruent(c.ncpConfig, Project(f, NCP_SECTIONS), Project(g, NCP_SECTIONS));
    ShowsCongruent(c.agentConfig, Project(f, AGENT_SECTIONS), Project(g, AGENT_SECTIONS));
  }

  lemma ShowsCongruent(doc: Option<Document>, f: File, g: File)
    requires Shows(doc, f) && SameOptions(f, g)
    ensures Shows(doc, g)
  {
    forall s, k ensures Effective(doc.value.file, s, k) == Effective(g, s, k) {
      assert Effective(doc.value.file, s, k) == Effective(f, s, k) == Effective(g, s, k);
    }
  }

  lemma QuietDecision(f: File, layout: string, applied: Option<Document>)
    requires Loadable(applied)
    requires Decision(Text(f, layout), applied) == Flags(NOTHING)
    ensures applied.Some? && SameOperatorOptions(f, applied.value.file)
  {
    if Text(f, layout) != applied.value {
      QuietMeansSameRendering(f, applied.value.file);
    }
  }

  // ---------------------------------------------------------------- one Reconcile

  /** Applying every rendered object leaves exactly the rendered cluster. */
  lemma ApplyEverything(c: Cluster, ncp: Document, agent: Document, inp: Inputs, install: Install, replicas: int)
    ensures var objs := RenderedObjects(ncp, agent, inp, install, replicas);
            ApplyUpTo(c, objs, |objs|) == RenderedCluster(ncp, agent, inp, install, replicas)
  {
    var objs := RenderedObjects(ncp, agent, inp, install, replicas);
    assert ApplyUpTo(c, objs, 1) == c;
    assert ApplyUpTo(c, objs, 3) ==
           c.(nsxSecret := Some(RenderedNsx(inp.nsxSecret)), lbSecret := Some(RenderedLb(inp.lbSecret)));
    assert ApplyUpTo(c, objs, 5) ==
           ApplyUpTo(c, objs, 3).(ncpConfig := Some(ncp), deployment := Some(objs[4].deployment));
    assert ApplyUpTo(c, objs, 7) ==
           ApplyUpTo(c, objs, 5).(agentConfig := Some(agent),
                                  bootstrapDs := Some(StoredTolerations(install.agentTolerations)));
    assert ApplyUpTo(c, objs, 8) == RenderedCluster(ncp, agent, inp, install, replicas);
  }

  ghost function RenderedCluster(ncp: Document, agent: Document, inp: Inputs, install: Install, replicas: int)
    : Cluster
  {
    Cluster(Some(ncp), Some(agent), Some(RenderedNsx(inp.nsxSecret)), Some(RenderedLb(inp.lbSecret)),
            Some(RenderedDeployment(inp, install, replicas)),
            Some(StoredTolerations(install.agentTolerations)), Some(StoredTolerations(install.agentTolerations)))
  }

  /** What the comparison and apply phase can lead to. */
  lemma ComparedCases(s: State, inp: Inputs, install: Install, replicas: int, doc: Document, v: Verdict, fl: Faults)
    requires doc.Text?
    ensures var r := Compared(s, inp, install, replicas, doc, v, fl);
            && (r.extent.NotStarted? ==> r.state == s)
            && (r.extent.PartWay? ==> r.state.applied == s.applied && r.outcome.Failed? && v.Flags?)
            && (r.extent.Complete? ==>
                && v.Flags? && r.state.applied == Some(doc)
                && r.state.cluster ==
                   RenderedCluster(NcpDocument(doc.file), AgentDocument(doc.file), inp, install, replicas))
            && (r.outcome.Applied? ==> r.extent.Complete?)
            && (r.outcome.NoChange? ==> r.extent.NotStarted? && v == Flags(NOTHING))
            && !r.outcome.Skipped?
  {
    ApplyEverything(s.cluster, NcpDocument(doc.file), AgentDocument(doc.file), inp, install, replicas);
  }

  /** What a Reconcile can lead to. */
  lemma StepCases(s: State, inp: Inputs, doc: Option<Document>, fl: Faults)
    requires Loadable(s.applied) && Loadable(doc)
    ensures var r := ReconciledWith(s, inp, doc, fl);
            var (applied, ok) := AppliedBefore(s, fl);
            && Loadable(r.state.applied)
            && (r.extent.NotStarted? ==>
                r.state.cluster == s.cluster && (r.state.applied == s.applied || r.state.applied == applied))
            && (r.extent.PartWay? ==> r.state.applied == applied)
            && (r.extent.Complete? ==>
                && ok && doc.Some? && r.state.applied == doc
                && RenderedFrom(r.state.cluster, doc.value.file) && Decision(doc.value, applied).Flags?)
            && (r.outcome.Applied? ==> r.extent.Complete?)
            && (r.outcome.NoChange? ==>
                && ok && r.extent.NotStarted? && r.state.applied == applied
                && doc.Some? && Decision(doc.value, applied) == Flags(NOTHING))
  {
    if doc.Some? && inp.install.Some? {
      var (applied, ok) := AppliedBefore(s, fl);
      DecidedCases(s, inp, inp.install.value, doc.value, applied, ok, Decision(doc.value, applied), fl);
    }
  }

  lemma DecidedCases(s: State, inp: Inputs, install: Install, doc: Document,
                     applied: Option<Document>, ok: bool, v: Verdict, fl: Faults)
    requires Loadable(s.applied) && doc.Text? && Loadable(applied)
    ensures var r := Decided(s, inp, install, doc, applied, ok, v, fl);
            && Loadable(r.state.applied)
            && (r.extent.NotStarted? ==>
                r.state.cluster == s.cluster && (r.state.applied == s.applied || r.state.applied == applied))
            && (r.extent.PartWay? ==> r.state.applied == applied)
            && (r.extent.Complete? ==>
                ok && v.Flags? && r.state.applied == Some(doc) && RenderedFrom(r.state.cluster, doc.file))
            && (r.outcome.Applied? ==> r.extent.Complete?)
            && (r.outcome.NoChange? ==> ok && r.extent.NotStarted? && r.state.applied == applied && v == Flags(NOTHING))
  {
    var replicas := ClampedReplicas(doc.file, install.replicas);
    if replicas.Some? {
      ComparedCases(State(applied, s.cluster), inp, install, replicas.value, doc, v, fl);
    }
  }

  lemma RecoveredTraced(s: State, fl: Faults, f: File)
    requires Loadable(s.applied)
    requires TracedTo(s, f)
    ensures AppliedBefore(s, fl).1
    ensures TracedTo(State(AppliedBefore(s, fl).0, s.cluster), f)
  {
    RecoveredRendersAlike(f);
    AppliedBeforeCases(s, fl, Project(f, NCP_SECTIONS), Project(f, AGENT_SECTIONS));
  }

  lemma AppliedBeforeCases(s: State, fl: Faults, ncp: File, agent: File)
    requires s.cluster.ncpConfig == Some(Text(ncp, "")) && s.cluster.agentConfig == Some(Text(agent, ""))
    ensures AppliedBefore(s, fl).1
    ensures AppliedBefore(s, fl).0 in {s.applied, None, Some(Text(Recover(ncp, agent), ""))}
  {
  }

  /** A Reconcile from a consistent state stays consistent unless the apply loop stops part-way, and
      when it succeeds - with or without applying - both ConfigMaps show the submitted configuration. */
  lemma ReconcileKeepsSync(s: State, inp: Inputs, doc: Option<Document>, fl: Faults)
    requires Loadable(s.applied) && Loadable(doc)
    requires Consistent(s)
    ensures var r := ReconciledWith(s, inp, doc, fl);
            && (!r.extent.PartWay? ==> Consistent(r.state))
            && (r.outcome.NoChange? || r.outcome.Applied? ==> doc.Some? && InSync(r.state.cluster, doc.value.file))
  {
    var r := ReconciledWith(s, inp, doc, fl);
    StepCases(s, inp, doc, fl);
    if r.extent.Complete? {
      assert TracedTo(r.state, doc.value.file);
      RenderedAlike(r.state.cluster, doc.value.file, doc.value.file);
    } else if r.extent.NotStarted? {
      if f: File :| TracedTo(s, f) {
        RecoveredTraced(s, fl, f);
        assert TracedTo(r.state, f);
        if r.outcome.NoChange? {
          QuietDecision(doc.value.file, doc.value.layout, r.state.applied);
          SameOperatorOptionsTransitive(doc.value.file, r.state.applied.value.file, f);
          RenderedAlike(s.cluster, f, doc.value.file);
        }
      }
    }
  }

  // ---------------------------------------------------------------- runs

  /** Everything that can happen, including process restarts and edits by others. */
  datatype Event = Reconcile(inp: Inputs, fl: Faults) | Restart | OutsideEdit(cluster: Cluster)

  /** `dirty` records that an apply loop stopped part-way or somebody edited the rendered objects,
      and no complete apply has happened since. */
  datatype World = World(state: State, dirty: bool)

  ghost function Next(w: World, e: Event): World {
    match e
    case Reconcile(inp, fl) =>
      var r := Reconciled(w.state, inp, fl);
      World(r.state, if r.extent.Complete? then false else w.dirty || r.extent.PartWay?)
    case Restart => World(State(None, w.state.cluster), w.dirty)
    case OutsideEdit(c) => World(State(w.state.applied, c), true)
  }

  ghost function Run(w: World, events: seq<Event>): World {
    if events == [] then w else Next(Run(w, events[..|events| - 1]), events[|events| - 1])
  }

  ghost predicate Inv(w: World) {
    && Loadable(w.state.applied)
    && (!w.dirty ==> Consistent(w.state))
  }

  /** The ConfigMaps are both absent, or both rendered from one configuration. */
  ghost predicate Initial(w: World) {
    && w.state.applied.None? && !w.dirty
    && ((w.state.cluster.ncpConfig.None? && w.state.cluster.agentConfig.None?) ||
        exists f: File :: RenderedFrom(w.state.cluster, f))
  }

  lemma ReconcileKeepsInv(w: World, inp: Inputs, doc: Option<Document>, fl: Faults)
    requires Inv(w) && Loadable(doc)
    ensures var r := ReconciledWith(w.state, inp, doc, fl);
            && Loadable(r.state.applied)
            && (r.extent.Complete? || (!w.dirty && !r.extent.PartWay?) ==> Consistent(r.state))
  {
    StepCases(w.state, inp, doc, fl);
    var r := ReconciledWith(w.state, inp, doc, fl);
    if r.extent.Complete? {
      assert TracedTo(r.state, doc.value.file);
    } else if !w.dirty {
      ReconcileKeepsSync(w.state, inp, doc, fl);
    }
  }

  lemma NextKeepsInv(w: World, e: Event)
    requires Inv(w)
    ensures Inv(Next(w, e))
  {
    match e
    case Reconcile(inp, fl) =>
      ReconcileKeepsInv(w, inp, Instance(inp), fl);
    case Restart =>
      if !w.dirty {
        if f: File :| TracedTo(w.state, f) {
          assert TracedTo(State(None, w.state.cluster), f);
        }
      }
    case OutsideEdit(_) =>
  }

  lemma {:induction false} RunKeepsInv(w: World, events: seq<Event>)
    requires Initial(w)
    ensures Inv(Run(w, events))
  {
    if events == [] {
      if f: File :| RenderedFrom(w.state.cluster, f) {
        assert TracedTo(w.state, f);
      }
    } else {
      RunKeepsInv(w, events[..|events| - 1]);
      NextKeepsInv(Run(w, events[..|events| - 1]), events[|events| - 1]);
    }
  }

  /** Main theorem.  In every run, restarts included, a successful Reconcile that applied, or that found the
      cluster not dirty, leaves both ConfigMaps with the option values of the configuration just submitted. */
  lemma SuccessMeansInSync(w: World, events: seq<Event>, inp: Inputs, fl: Faults)
    requires Initial(w)
    ensures var before := Run(w, events);
            var r := Reconciled(before.state, inp, fl);
            r.outcome.Applied? || (r.outcome.NoChange? && !before.dirty) ==>
              Instance(inp).Some? && InSync(r.state.cluster, Instance(inp).value.file)
  {
    RunKeepsInv(w, events);
    SuccessFrom(Run(w, events), inp, Instance(inp), fl);
  }

  lemma SuccessFrom(w: World, inp: Inputs, doc: Option<Document>, fl: Faults)
    requires Inv(w) && Loadable(doc)
    ensures var r := ReconciledWith(w.state, inp, doc, fl);
            r.outcome.Applied? || (r.outcome.NoChange? && !w.dirty) ==>
              doc.Some? && InSync(r.state.cluster, doc.value.file)
  {
    StepCases(w.state, inp, doc, fl);
    if !w.dirty {
      ReconcileKeepsSync(w.state, inp, doc, fl);
    } else if ReconciledWith(w.state, inp, doc, fl).outcome.Applied? {
      RenderedAlike(ReconciledWith(w.state, inp, doc, fl).state.cluster, doc.value.file, doc.value.file);
    }
  }

  /** Exactly when a no-change return is right, dirty or not: when the ConfigMaps showed the configuration it was
      compared with, which after a restart is the one recovered from them. */
  lemma NoChangeExactly(s: State, inp: Inputs, doc: Option<Document>, fl: Faults)
    requires Loadable(s.applied) && Loadable(doc)
    requires ReconciledWith(s, inp, doc, fl).outcome.NoChange?
    ensures var applied := AppliedBefore(s, fl).0;
            && applied.Some? && applied.value.Text? && doc.Some?
            && (InSync(ReconciledWith(s, inp, doc, fl).state.cluster, doc.value.file) <==>
                InSync(s.cluster, applied.value.file))
  {
    var applied := AppliedBefore(s, fl).0;
    StepCases(s, inp, doc, fl);
    QuietDecision(doc.value.file, doc.value.layout, applied);
    if InSync(s.cluster, applied.value.file) {
      InSyncCongruent(s.cluster, applied.value.file, doc.value.file);
    }
    if InSync(s.cluster, doc.value.file) {
      InSyncCongruent(s.cluster, doc.value.file, applied.value.file);
    }
  }

  /** What an option that is not there is worth. */
  ghost function Blank(s: Section, k: Key): Option<string> { if Immutable(s, k) then Some("") else None }

  /** Two ConfigMaps that agree at one option: each has its own sections only, and what both have is the same. */
  ghost predicate AgreeAt(ncp: File, agent: File, s: Section, k: Key) {
    && (s !in NCP_SECTIONS ==> Effective(ncp, s, k) == Blank(s, k))
    && (s !in AGENT_SECTIONS ==> Effective(agent, s, k) == Blank(s, k))
    && (s in AGENT_SECTIONS && (s in NCP_SECTIONS || ncp.HasSection(s)) ==>
        Effective(ncp, s, k) == Effective(agent, s, k))
  }

  ghost predicate Agreeing(ncp: File, agent: File) {
    forall s, k :: AgreeAt(ncp, agent, s, k)
  }

  lemma SameContentsSameOption(a: File, b: File, s: Section, k: Key)
    requires a.Contents(s) == b.Contents(s)
    ensures Effective(a, s, k) == Effective(b, s, k)
  {
  }

  lemma RecoveredOption(ncp: File, agent: File, s: Section, k: Key)
    requires s in OPERATOR_SECTIONS
    ensures ncp.HasSection(s) ==> Effective(Recover(ncp, agent), s, k) == Effective(ncp, s, k)
    ensures !ncp.HasSection(s) ==> Effective(Recover(ncp, agent), s, k) == Effective(agent, s, k)
  {
    var both := Combine(ncp, agent);
    ProjectedOption(both, OPERATOR_SECTIONS, s, k);
    if ncp.HasSection(s) {
      SameContentsSameOption(both, ncp, s, k);
    } else {
      SameContentsSameOption(both, agent, s, k);
    }
  }

  lemma MissingOption(f: File, s: Section, k: Key)
    requires !f.HasSection(s)
    ensures Effective(f, s, k) == Blank(s, k)
  {
  }

  lemma OperatorSections(s: Section)
    ensures s in OPERATOR_SECTIONS <==> s in NCP_SECTIONS || s in AGENT_SECTIONS
  {
  }

  lemma AgreeAtExactly(ncp: File, agent: File, s: Section, k: Key)
    ensures var r := Recover(ncp, agent);
            AgreeAt(ncp, agent, s, k) <==>
            && Effective(ncp, s, k) == Effective(Project(r, NCP_SECTIONS), s, k)
            && Effective(agent, s, k) == Effective(Project(r, AGENT_SECTIONS), s, k)
  {
    var r := Recover(ncp, agent);
    OperatorSections(s);
    if s in OPERATOR_SECTIONS {
      RecoveredOption(ncp, agent, s, k);
    }
    ProjectedOption(r, NCP_SECTIONS, s, k);
    ProjectedOption(r, AGENT_SECTIONS, s, k);
    AgreeWith(ncp, agent, r, Project(r, NCP_SECTIONS), Project(r, AGENT_SECTIONS), s, k);
  }

  lemma AgreeWith(ncp: File, agent: File, r: File, ncpAgain: File, agentAgain: File, s: Section, k: Key)
    requires s in NCP_SECTIONS || s in AGENT_SECTIONS ==>
               Effective(r, s, k) == Effective(if ncp.HasSection(s) then ncp else agent, s, k)
    requires Effective(ncpAgain, s, k) == if s in NCP_SECTIONS then Effective(r, s, k) else Blank(s, k)
    requires Effective(agentAgain, s, k) == if s in AGENT_SECTIONS then Effective(r, s, k) else Blank(s, k)
    ensures AgreeAt(ncp, agent, s, k) <==>
            Effective(ncp, s, k) == Effective(ncpAgain, s, k) && Effective(agent, s, k) == Effective(agentAgain, s, k)
  {
    if !ncp.HasSection(s) {
      MissingOption(ncp, s, k);
    }
    AgreeCases(s in NCP_SECTIONS, s in AGENT_SECTIONS, ncp.HasSection(s), Effective(ncp, s, k), Effective(agent, s, k),
               Effective(r, s, k), Blank(s, k));
  }

  /** The four ways in which a section can belong to the ConfigMaps. */
  lemma AgreeCases(inNcp: bool, inAgent: bool, has: bool, ncp: Option<string>, agent: Option<string>,
                   recovered: Option<string>, blank: Option<string>)
    requires inNcp || inAgent ==> recovered == if has then ncp else agent
    requires !has ==> ncp == blank
    ensures (ncp == if inNcp then recovered else blank) && (agent == if inAgent then recovered else blank) <==>
            && (!inNcp ==> ncp == blank) && (!inAgent ==> agent == blank)
            && (inAgent && (inNcp || has) ==> ncp == agent)
  {
  }

  /** The ConfigMaps show what is recovered from them exactly when they agree. */
  lemma RecoveredInSyncExactly(c: Cluster, ncp: File, agent: File)
    requires c.ncpConfig.Some? && c.ncpConfig.value.Text? && c.ncpConfig.value.file == ncp
    requires c.agentConfig.Some? && c.agentConfig.value.Text? && c.agentConfig.value.file == agent
    ensures InSync(c, Recover(ncp, agent)) <==> Agreeing(ncp, agent)
  {
    var r := Recover(ncp, agent);
    if InSync(c, r) {
      forall s, k ensures AgreeAt(ncp, agent, s, k) { AgreeAtExactly(ncp, agent, s, k); }
    }
    if Agreeing(ncp, agent) {
      forall s, k
        ensures Effective(ncp, s, k) == Effective(Project(r, NCP_SECTIONS), s, k)
        ensures Effective(agent, s, k) == Effective(Project(r, AGENT_SECTIONS), s, k)
      {
        assert AgreeAt(ncp, agent, s, k);
        AgreeAtExactly(ncp, agent, s, k);
      }
    }
  }

  /** After a restart a no-change return is right exactly when the two ConfigMaps agree. */
  lemma NoChangeAfterRestartExactly(s: State, inp: Inputs, doc: Option<Document>, fl: Faults)
    requires s.applied.None? && Loadable(doc)
    requires ReconciledWith(s, inp, doc, fl).outcome.NoChange?
    ensures s.cluster.ncpConfig.Some? && s.cluster.ncpConfig.value.Text?
    ensures s.cluster.agentConfig.Some? && s.cluster.agentConfig.value.Text?
    ensures doc.Some?
    ensures InSync(ReconciledWith(s, inp, doc, fl).state.cluster, doc.value.file) <==>
            Agreeing(s.cluster.ncpConfig.value.file, s.cluster.agentConfig.value.file)
  {
    NoChangeExactly(s, inp, doc, fl);
    StepCases(s, inp, doc, fl);
    RecoveredFrom(s, fl);
    RecoveredInSyncExactly(s.cluster, s.cluster.ncpConfig.value.file, s.cluster.agentConfig.value.file);
  }

  lemma RecoveredFrom(s: State, fl: Faults)
    requires s.applied.None? && AppliedBefore(s, fl).0.Some? && AppliedBefore(s, fl).1
    ensures s.cluster.ncpConfig.Some? && s.cluster.ncpConfig.value.Text?
    ensures s.cluster.agentConfig.Some? && s.cluster.agentConfig.value.Text?
    ensures AppliedBefore(s, fl).0.value ==
            Text(Recover(s.cluster.ncpConfig.value.file, s.cluster.agentConfig.value.file), "")
  {
  }

  // ---------------------------------------------------------------- immutable options

  ghost function ImmutableValues(doc: Document): (string, string)
    requires doc.Text?
  {
    (doc.file.Value(Coe, ClusterName), doc.file.Value(NsxV3, L4LbAutoScaling))
  }

  lemma NotDiffering(cur: File, prev: File)
    requires !ImmutableDiffers(cur, prev)
    ensures cur.Value(Coe, ClusterName) == prev.Value(Coe, ClusterName)
    ensures cur.Value(NsxV3, L4LbAutoScaling) == prev.Value(NsxV3, L4LbAutoScaling)
  {
  }

  /** Whatever is submitted and whichever client call fails, once an applied configuration exists
      its immutable values stay. */
  lemma ReconcileKeepsImmutable(s: State, inp: Inputs, doc: Option<Document>, fl: Faults)
    requires s.applied.Some? && Loadable(s.applied) && Loadable(doc)
    ensures var r := ReconciledWith(s, inp, doc, fl);
            r.state.applied.Some? && r.state.applied.value.Text? &&
            ImmutableValues(r.state.applied.value) == ImmutableValues(s.applied.value)
  {
    var r := ReconciledWith(s, inp, doc, fl);
    StepCases(s, inp, doc, fl);
    if r.extent.Complete? && doc != s.applied {
      FlagsMeanSameImmutable(doc.value, s.applied.value);
    }
  }

  lemma FlagsMeanSameImmutable(cur: Document, prev: Document)
    requires cur.Text? && prev.Text? && cur != prev && Decision(cur, Some(prev)).Flags?
    ensures ImmutableValues(cur) == ImmutableValues(prev)
  {
    NotDiffering(cur.file, prev.file);
  }

  lemma {:induction false} RunKeepsImmutable(w: World, events: seq<Event>)
    requires w.state.applied.Some? && w.state.applied.value.Text?
    requires forall e :: e in events ==> !e.Restart?
    ensures var after := Run(w, events).state;
            after.applied.Some? && after.applied.value.Text? &&
            ImmutableValues(after.applied.value) == ImmutableValues(w.state.applied.value)
  {
    if events != [] {
      var front, last := events[..|events| - 1], events[|events| - 1];
      RunKeepsImmutable(w, front);
      if last.Reconcile? {
        ReconcileKeepsImmutable(Run(w, front).state, last.inp, Instance(last.inp), last.fl);
      }
    }
  }

  /** After a restart the immutable options are protected exactly when both ConfigMaps exist and can be read; otherwise
      a changed value is applied.  When both load, "changed" is with respect to what is recovered from them. */
  lemma RestartGuardsImmutableExactly(s: State, inp: Inputs, doc: Document, ncpFails: bool, agentFails: bool)
    requires s.applied.None? && doc.Text?
    requires inp.install.Some? && inp.config.Some? && NetworkOf(inp).Some?
    requires ClampedReplicas(doc.file, inp.install.value.replicas).Some?
    requires var c := s.cluster;
             && c.ncpConfig.Some? && c.ncpConfig.value.Text? && c.agentConfig.Some? && c.agentConfig.value.Text? ==>
               ImmutableDiffers(doc.file, Recover(c.ncpConfig.value.file, c.agentConfig.value.file))
    ensures var fl := NO_FAULTS.(ncpConfig := ncpFails, agentConfig := agentFails);
            var r := ReconciledWith(s, inp, Some(doc), fl);
            var guarded := !ncpFails && !agentFails && s.cluster.ncpConfig.Some? && s.cluster.agentConfig.Some?;
            && (r.outcome.Failed? && r.state.cluster == s.cluster <==> guarded)
            && (r.outcome.Applied? && r.state.applied == Some(doc) <==> !guarded)
  {
    var fl := NO_FAULTS.(ncpConfig := ncpFails, agentConfig := agentFails);
    var (applied, ok) := AppliedBefore(s, fl);
    var v, n := Decision(doc, applied), ClampedReplicas(doc.file, inp.install.value.replicas).value;
    RecoveryCases(s, fl);
    ReconciledIs(s, inp, doc, n, applied, ok, v, fl);
    if ok && applied.Some? {
      NotSame(doc, applied.value);
    } else if ok {
      ComparedCases(State(applied, s.cluster), inp, inp.install.value, n, doc, v, fl);
    }
  }

  lemma RecoveryCases(s: State, fl: Faults)
    requires s.applied.None?
    ensures var c, (applied, ok) := s.cluster, AppliedBefore(s, fl);
            && (!fl.ncpConfig && !fl.agentConfig && c.ncpConfig.Some? && c.agentConfig.Some? <==> applied.Some?)
            && (!ok ==> applied.Some?)
            && (ok && applied.Some? ==>
                && c.ncpConfig.value.Text? && c.agentConfig.value.Text?
                && applied.value == Text(Recover(c.ncpConfig.value.file, c.agentConfig.value.file), ""))
  {
  }

  /** Reconcile of a prepared configuration, given what is remembered or recovered. */
  lemma ReconciledIs(s: State, inp: Inputs, doc: Document, n: int, applied: Option<Document>, ok: bool, v: Verdict,
                     fl: Faults)
    requires !fl.inputs && inp.install.Some? && inp.config.Some? && NetworkOf(inp).Some? && doc.Text?
    requires ClampedReplicas(doc.file, inp.install.value.replicas) == Some(n)
    requires AppliedBefore(s, fl) == (applied, ok) && v == Decision(doc, applied)
    ensures ReconciledWith(s, inp, Some(doc), fl) ==
            if ok then Compared(State(applied, s.cluster), inp, inp.install.value, n, doc, v, fl)
            else Step(State(applied, s.cluster), Failed, NotStarted)
  {
  }

  lemma NotSame(doc: Document, prev: Document)
    requires doc.Text? && prev.Text? && ImmutableDiffers(doc.file, prev.file)
    ensures Decision(doc, Some(prev)) == ImmutableChanged
  {
  }

  lemma ImmutableDiffersFrom(doc: Document, applied: Document, f: File)
    requires doc.Text? && applied.Text? && ImmutableDiffers(doc.file, f) && SameOperatorOptions(applied.file, f)
    ensures Decision(doc, Some(applied)) == ImmutableChanged
  {
    SameImmutable(applied.file, f);
    NotDiffering(applied.file, f);
  }

  // ---------------------------------------------------------------- convergence

  /** No list of ncp-install is there but empty; such a list reads back as one that is not there. */
  predicate ListsReadBack(install: Install) {
    install.selector != Some(map[]) && install.ncpTolerations != Some([]) && install.agentTolerations != Some([])
  }

  /** A cluster rendered from these inputs compares as equal to them; tls.ca of lb-secret is compared but never
      rendered. */
  ghost predicate Settles(inp: Inputs, install: Install) {
    inp.image != "" && Entry(inp.lbSecret, TlsCa) == "" && ListsReadBack(install)
  }

  /** After a Reconcile that applied, a second one with the same inputs applies nothing exactly when the image is
      configured, lb-secret carries no tls.ca and no list of ncp-install is empty; otherwise it applies everything
      again. */
  lemma ConvergesExactly(s: State, inp: Inputs, doc: Option<Document>, fl: Faults)
    requires Loadable(doc)
    requires ReconciledWith(s, inp, doc, fl).outcome.Applied?
    ensures var after := ReconciledWith(s, inp, doc, fl).state;
            var again := ReconciledWith(after, inp, doc, NO_FAULTS);
            && inp.install.Some?
            && (again.outcome.NoChange? <==> Settles(inp, inp.install.value))
            && (again.outcome.NoChange? ==> again.state == after)
            && (!again.outcome.NoChange? ==> again.outcome.Applied?)
  {
    var applied := AppliedBefore(s, fl).0;
    var install := inp.install.value;
    var replicas := ClampedReplicas(doc.value.file, install.replicas).value;
    ComparedCases(State(applied, s.cluster), inp, install, replicas, doc.value, Decision(doc.value, applied), fl);
    var c := RenderedCluster(NcpDocument(doc.value.file), AgentDocument(doc.value.file), inp, install, replicas);
    assert ReconciledWith(s, inp, doc, fl).state == State(doc, c);
    SecondCompare(inp, install, replicas, doc.value, c);
  }

  lemma SecondCompare(inp: Inputs, install: Install, replicas: int, doc: Document, c: Cluster)
    requires doc.Text?
    requires c == RenderedCluster(NcpDocument(doc.file), AgentDocument(doc.file), inp, install, replicas)
    ensures var again := Compared(State(Some(doc), c), inp, install, replicas, doc, Flags(NOTHING), NO_FAULTS);
            && (again.outcome.NoChange? <==> Settles(inp, install))
            && (again.outcome.NoChange? ==> again.state == State(Some(doc), c))
            && (!again.outcome.NoChange? ==> again.outcome.Applied?)
  {
    RenderedCompares(inp, install, replicas, c);
  }

  /** How a rendered cluster compares with the inputs it was rendered from. */
  lemma RenderedCompares(inp: Inputs, install: Install, replicas: int, c: Cluster)
    requires c.nsxSecret == Some(RenderedNsx(inp.nsxSecret)) && c.lbSecret == Some(RenderedLb(inp.lbSecret))
    requires c.deployment == Some(RenderedDeployment(inp, install, replicas))
    requires c.bootstrapDs.Some? && c.agentDs == Some(StoredTolerations(install.agentTolerations))
    ensures SecretsChanged(inp, c) <==> Entry(inp.lbSecret, TlsCa) != ""
    ensures AgentDsChanged(install, c) <==> install.agentTolerations == Some([])
    ensures !AnyMonitoredDeleted(c)
    ensures DeploymentChanged(inp, install, replicas, c) <==>
            inp.image == "" || install.selector == Some(map[]) || install.ncpTolerations == Some([])
  {
    assert !SecretNotEqual(inp.nsxSecret, c.nsxSecret);
  }

  /** A no-change Reconcile is followed by no-change Reconciles. */
  lemma StaysQuiet(s: State, inp: Inputs, doc: Option<Document>, fl: Faults)
    requires Loadable(s.applied) && Loadable(doc)
    requires ReconciledWith(s, inp, doc, fl).outcome.NoChange?
    ensures var after := ReconciledWith(s, inp, doc, fl).state;
            ReconciledWith(after, inp, doc, NO_FAULTS) == Step(after, NoChange, NotStarted)
  {
    var (applied, ok) := AppliedBefore(s, fl);
    var after := State(applied, s.cluster);
    var v := Decision(doc.value, applied);
    var replicas := ClampedReplicas(doc.value.file, inp.install.value.replicas).value;
    assert ReconciledWith(s, inp, doc, fl) == Compared(after, inp, inp.install.value, replicas, doc.value, v, fl);
    QuietAgain(after, inp, inp.install.value, replicas, doc.value, v, fl);
    StepCases(s, inp, doc, fl);
  }

  lemma QuietAgain(s: State, inp: Inputs, install: Install, replicas: int, doc: Document, v: Verdict, fl: Faults)
    requires doc.Text? && Compared(s, inp, install, replicas, doc, v, fl).outcome.NoChange?
    ensures Compared(s, inp, install, replicas, doc, v, fl) == Step(s, NoChange, NotStarted)
    ensures Compared(s, inp, install, replicas, doc, v, NO_FAULTS) == Step(s, NoChange, NotStarted)
  {
  }
}
