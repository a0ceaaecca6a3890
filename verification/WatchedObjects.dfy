/** What a successful Reconcile says about every rendered object, not only the ConfigMaps. */
module WatchedObjects {
  import opened Common
  import opened Names
  import opened Ini
  import opened ConfigDiff
  import opened Projection
  import opened Pipeline
  import opened Reconciler
  import opened ConfigRuns

  // ---------------------------------------------------------------- what is compared and rendered

  lemma SecretsCompared(a: Option<Secret>, b: Option<Secret>)
    ensures SecretNotEqual(a, b) <==> exists e :: Entry(a, e) != Entry(b, e)
  {
    assert !SecretNotEqual(a, b) <==>
             Entry(a, TlsCrt) == Entry(b, TlsCrt) && Entry(a, TlsKey) == Entry(b, TlsKey) &&
             Entry(a, TlsCa) == Entry(b, TlsCa);
  }

  /** Rendering keeps every entry, except that lb-secret has no tls.ca. */
  lemma RenderedEntries(s: Option<Secret>, e: EntryName)
    ensures Entry(Some(RenderedNsx(s)), e) == Entry(s, e)
    ensures Entry(Some(RenderedLb(s)), e) == if e.TlsCa? then "" else Entry(s, e)
  {
  }

  /** The secret is there, and its entries are the submitted ones. */
  ghost predicate SameEntries(there: Option<Secret>, submitted: Option<Secret>) {
    there.Some? && forall e :: Entry(there, e) == Entry(submitted, e)
  }

  /** Every object is as rendering these inputs makes it: the secrets entry by entry, lb-secret without tls.ca, the
      nsx-ncp Deployment with its image, or a default one, and the given lists, and both DaemonSets. */
  ghost predicate AsRendered(c: Cluster, f: File, inp: Inputs, install: Install, replicas: int) {
    && InSync(c, f) && SameEntries(c.nsxSecret, inp.nsxSecret)
    && c.lbSecret.Some? && (forall e :: Entry(c.lbSecret, e) == if e.TlsCa? then "" else Entry(inp.lbSecret, e))
    && DeploymentAsRendered(c, inp, install, replicas)
    && c.agentDs == Some(if install.agentTolerations.Some? then install.agentTolerations.value else [])
    && c.bootstrapDs == Some(if install.agentTolerations.Some? then install.agentTolerations.value else [])
  }

  ghost predicate DeploymentAsRendered(c: Cluster, inp: Inputs, install: Install, replicas: int) {
    && c.deployment.Some?
    && var d := c.deployment.value;
    && d.image == (if inp.image != "" then inp.image else "nsx-ncp:latest") && d.replicas == replicas
    && d.selector == (if install.selector.Some? then install.selector.value else map[])
    && d.tolerations == if install.ncpTolerations.Some? then install.ncpTolerations.value else []
  }

  /** A list as it is read back: an empty one is not there. */
  ghost predicate ReadsAs<T>(stored: T, empty: T, given: Option<T>) {
    if stored == empty then given.None? else given == Some(stored)
  }

  /** What has to hold of the cluster for nothing to be applied once the configuration did not change. */
  ghost predicate NothingDiffers(c: Cluster, inp: Inputs, install: Install, replicas: int) {
    && (forall e :: Entry(c.nsxSecret, e) == Entry(inp.nsxSecret, e))
    && (forall e :: Entry(c.lbSecret, e) == Entry(inp.lbSecret, e))
    && c.deployment.Some? && c.agentDs.Some? && c.bootstrapDs.Some?
    && c.deployment.value.image == inp.image && c.deployment.value.replicas == replicas
    && ReadsAs(c.deployment.value.selector, map[], install.selector)
    && ReadsAs(c.deployment.value.tolerations, [], install.ncpTolerations)
    && ReadsAs(c.agentDs.value, [], install.agentTolerations)
  }

  lemma ApplyDueExactly(c: Cluster, inp: Inputs, install: Install, replicas: int, change: NeedChange)
    ensures ApplyDue(c, inp, install, replicas, change) <==>
            change != NOTHING || !NothingDiffers(c, inp, install, replicas)
  {
    SecretsCompared(inp.nsxSecret, c.nsxSecret);
    SecretsCompared(inp.lbSecret, c.lbSecret);
  }

  /** The reads that a Reconcile needs: the secrets only while nsx-ncp need not restart anyway, lb-secret only when
      nsx-secret has not changed, and the workloads only when nothing else has. */
  lemma ReadBlockedExactly(c: Cluster, inp: Inputs, change: NeedChange, fl: Faults)
    ensures var sameNsx := forall e :: Entry(c.nsxSecret, e) == Entry(inp.nsxSecret, e);
            var sameLb := forall e :: Entry(c.lbSecret, e) == Entry(inp.lbSecret, e);
            ReadBlocked(c, inp, change, fl) <==>
              || (!change.ncp && (fl.nsxSecret || (sameNsx && fl.lbSecret)))
              || fl.agentDs
              || (change == NOTHING && sameNsx && sameLb &&
                  (fl.monitored || (c.agentDs.Some? && c.bootstrapDs.Some? && c.deployment.Some? && fl.deployment)))
  {
    SecretsCompared(inp.nsxSecret, c.nsxSecret);
    SecretsCompared(inp.lbSecret, c.lbSecret);
  }

  /** On OpenShift, or with a changed MTU, the network status is written. */
  ghost predicate StatusWritten(p: Platform, f: File, applied: Option<Document>) {
    || p.OpenShift?
    || f.Value(NsxNodeAgent, Mtu) !=
       if applied.Some? && applied.value.Text? then applied.value.file.Value(NsxNodeAgent, Mtu) else ""
  }

  /** Exactly when a Reconcile returns without a change: everything is there and accepted, no relevant option changed,
      nothing in the cluster differs, and no read, nor the network status if it is written, fails.  One differing entry
      of a secret is enough for a change. */
  lemma NoChangeReturnedExactly(s: State, inp: Inputs, doc: Option<Document>, fl: Faults)
    requires Loadable(doc)
    ensures ReconciledWith(s, inp, doc, fl).outcome.NoChange? <==>
            && !fl.inputs && inp.install.Some? && inp.config.Some? && NetworkOf(inp).Some? && doc.Some?
            && var n := ClampedReplicas(doc.value.file, inp.install.value.replicas);
            var (applied, ok) := AppliedBefore(s, fl);
            && n.Some? && ok && Decision(doc.value, applied) == Flags(NOTHING)
            && NothingDiffers(s.cluster, inp, inp.install.value, n.value)
            && !fl.nsxSecret && !fl.lbSecret && !fl.agentDs && !fl.monitored && !fl.deployment
            && !(fl.networkStatus && StatusWritten(inp.platform, doc.value.file, applied))
  {
    if doc.Some? && inp.install.Some? && inp.config.Some? && NetworkOf(inp).Some? && !fl.inputs {
      var (applied, ok) := AppliedBefore(s, fl);
      var n := ClampedReplicas(doc.value.file, inp.install.value.replicas);
      if n.Some? && ok {
        ReconciledIs(s, inp, doc.value, n.value, applied, ok, Decision(doc.value, applied), fl);
        ComparedExactly(State(applied, s.cluster), inp, inp.install.value, n.value, doc.value,
                        Decision(doc.value, applied), fl);
      }
    }
  }

  lemma ComparedExactly(s: State, inp: Inputs, install: Install, n: int, doc: Document, v: Verdict, fl: Faults)
    requires doc.Text?
    ensures Compared(s, inp, install, n, doc, v, fl).outcome.NoChange? <==>
            && v == Flags(NOTHING) && NothingDiffers(s.cluster, inp, install, n)
            && !fl.nsxSecret && !fl.lbSecret && !fl.agentDs && !fl.monitored && !fl.deployment
            && !(fl.networkStatus && StatusWritten(inp.platform, doc.file, s.applied))
    ensures v.Flags? && fl == NO_FAULTS && (v.change != NOTHING || !NothingDiffers(s.cluster, inp, install, n)) ==>
              Compared(s, inp, install, n, doc, v, fl).outcome.Applied?
  {
    if v.Flags? {
      ApplyDueExactly(s.cluster, inp, install, n, v.change);
      ReadBlockedExactly(s.cluster, inp, v.change, fl);
    }
  }

  /** Exactly when the comparison and apply phase applies: there is a reason to, no needed read fails, none of the
      eight objects of the manifest fails, nine on OpenShift, and the network status is written if it is due. */
  lemma AppliedExactly(s: State, inp: Inputs, install: Install, n: int, doc: Document, v: Verdict, fl: Faults)
    requires doc.Text?
    ensures Compared(s, inp, install, n, doc, v, fl).outcome.Applied? <==>
            && v.Flags? && !ReadBlocked(s.cluster, inp, v.change, fl)
            && (v.change != NOTHING || !NothingDiffers(s.cluster, inp, install, n))
            && (fl.applyAt.Some? ==> fl.applyAt.value >= if inp.platform.OpenShift? then 9 else 8)
            && !(fl.networkStatus && StatusWritten(inp.platform, doc.file, s.applied))
  {
    if v.Flags? {
      ApplyDueExactly(s.cluster, inp, install, n, v.change);
    }
  }

  /** With no failing call: what is missing is skipped, what is rejected or cannot be compared fails, and otherwise a
      Reconcile applies unless no relevant option changed and nothing in the cluster differs. */
  lemma OutcomeExactly(s: State, inp: Inputs, doc: Option<Document>)
    requires Loadable(doc)
    ensures var r := ReconciledWith(s, inp, doc, NO_FAULTS).outcome;
            if inp.install.None? || inp.config.None? || NetworkOf(inp).None? then r.Skipped?
            else if doc.None? then r.Failed?
            else
              var n := ClampedReplicas(doc.value.file, inp.install.value.replicas);
              var (applied, ok) := AppliedBefore(s, NO_FAULTS);
              if n.None? || !ok || !Decision(doc.value, applied).Flags? then r.Failed?
              else if Decision(doc.value, applied) == Flags(NOTHING) &&
                      NothingDiffers(s.cluster, inp, inp.install.value, n.value) then r.NoChange?
              else r.Applied?
  {
    if doc.Some? && inp.install.Some? && inp.config.Some? && NetworkOf(inp).Some? {
      var (applied, ok) := AppliedBefore(s, NO_FAULTS);
      var n := ClampedReplicas(doc.value.file, inp.install.value.replicas);
      if n.Some? && ok {
        ReconciledIs(s, inp, doc.value, n.value, applied, ok, Decision(doc.value, applied), NO_FAULTS);
        ComparedExactly(State(applied, s.cluster), inp, inp.install.value, n.value, doc.value,
                        Decision(doc.value, applied), NO_FAULTS);
      }
    }
  }

  /** What the comparisons of a no-change Reconcile leave open. */
  ghost predicate Unwatched(c: Cluster, inp: Inputs, install: Install) {
    && c.nsxSecret.Some? && c.lbSecret.Some? && Entry(inp.lbSecret, TlsCa) == "" && inp.image != ""
    && c.bootstrapDs == Some(if install.agentTolerations.Some? then install.agentTolerations.value else [])
  }

  lemma ReadsBack(install: Install, replicas: int, inp: Inputs, c: Cluster)
    requires NothingDiffers(c, inp, install, replicas)
    ensures c.agentDs == Some(if install.agentTolerations.Some? then install.agentTolerations.value else [])
    ensures DeploymentAsRendered(c, inp, install, replicas) <==> inp.image != ""
  {
  }

  lemma SecretsAgree(inp: Inputs, install: Install, replicas: int, c: Cluster)
    requires NothingDiffers(c, inp, install, replicas)
    ensures SameEntries(c.nsxSecret, inp.nsxSecret) <==> c.nsxSecret.Some?
    ensures (forall e :: Entry(c.lbSecret, e) == if e.TlsCa? then "" else Entry(inp.lbSecret, e)) <==>
            Entry(inp.lbSecret, TlsCa) == ""
  {
    assert Entry(c.lbSecret, TlsCa) == Entry(inp.lbSecret, TlsCa);
  }

  lemma WatchedAsRendered(c: Cluster, f: File, inp: Inputs, install: Install, n: int)
    requires NothingDiffers(c, inp, install, n)
    ensures AsRendered(c, f, inp, install, n) <==> InSync(c, f) && Unwatched(c, inp, install)
  {
    ReadsBack(install, n, inp, c);
    SecretsAgree(inp, install, n, c);
  }

  /** From any cluster: after a no-change Reconcile every object is as rendered if and only if the ConfigMaps showed the
      configuration it was compared with, and so was what it does not look at. */
  lemma NoChangeRendersExactly(s: State, inp: Inputs, doc: Option<Document>, fl: Faults)
    requires Loadable(s.applied) && Loadable(doc)
    requires ReconciledWith(s, inp, doc, fl).outcome.NoChange?
    ensures var applied := AppliedBefore(s, fl).0;
            && applied.Some? && applied.value.Text? && doc.Some? && inp.install.Some?
            && var n := ClampedReplicas(doc.value.file, inp.install.value.replicas);
            && n.Some?
            && var after := ReconciledWith(s, inp, doc, fl).state.cluster;
            && (AsRendered(after, doc.value.file, inp, inp.install.value, n.value) <==>
                InSync(s.cluster, applied.value.file) && Unwatched(s.cluster, inp, inp.install.value))
  {
    NoChangeExactly(s, inp, doc, fl);
    StepCases(s, inp, doc, fl);
    var (applied, ok) := AppliedBefore(s, fl);
    var n := ClampedReplicas(doc.value.file, inp.install.value.replicas).value;
    NoChangeReturnedExactly(s, inp, doc, fl);
    WatchedAsRendered(s.cluster, doc.value.file, inp, inp.install.value, n);
  }

  // ---------------------------------------------------------------- runs

  /** What a cluster was rendered from. */
  datatype Rendering = Rendering(file: File, inp: Inputs, install: Install, replicas: int)

  ghost function ClusterOf(x: Rendering): Cluster {
    RenderedCluster(NcpDocument(x.file), AgentDocument(x.file), x.inp, x.install, x.replicas)
  }

  /** Nothing was ever rendered, or everything from the same inputs. */
  ghost predicate Whole(s: State) {
    || (s.applied.None? && s.cluster.ncpConfig.None? && s.cluster.agentConfig.None?)
    || exists x :: s.cluster == ClusterOf(x)
  }

  ghost predicate InitialWhole(w: World) { w.state.applied.None? && !w.dirty && Whole(w.state) }

  lemma WholeIsInitial(w: World)
    requires InitialWhole(w)
    ensures Initial(w)
  {
    if x :| w.state.cluster == ClusterOf(x) {
      assert RenderedFrom(w.state.cluster, x.file);
    }
  }

  lemma CompleteRenders(s: State, inp: Inputs, doc: Option<Document>, fl: Faults)
    requires Loadable(s.applied) && Loadable(doc) && ReconciledWith(s, inp, doc, fl).extent.Complete?
    ensures doc.Some? && inp.install.Some? && ClampedReplicas(doc.value.file, inp.install.value.replicas).Some?
    ensures ReconciledWith(s, inp, doc, fl).state.cluster ==
            ClusterOf(Rendering(doc.value.file, inp, inp.install.value,
                                ClampedReplicas(doc.value.file, inp.install.value.replicas).value))
  {
    var (applied, ok) := AppliedBefore(s, fl);
    var n := ClampedReplicas(doc.value.file, inp.install.value.replicas).value;
    ReconciledIs(s, inp, doc.value, n, applied, ok, Decision(doc.value, applied), fl);
    ComparedCases(State(applied, s.cluster), inp, inp.install.value, n, doc.value, Decision(doc.value, applied), fl);
  }

  lemma ReconcileKeepsWhole(s: State, inp: Inputs, doc: Option<Document>, fl: Faults)
    requires Loadable(s.applied) && Loadable(doc)
    ensures var r := ReconciledWith(s, inp, doc, fl);
            r.extent.Complete? || (r.extent.NotStarted? && Whole(s)) ==> Whole(r.state)
  {
    var r := ReconciledWith(s, inp, doc, fl);
    StepCases(s, inp, doc, fl);
    if r.extent.Complete? {
      CompleteRenders(s, inp, doc, fl);
    }
  }

  lemma {:induction false} RunKeepsWhole(w: World, events: seq<Event>)
    requires InitialWhole(w)
    ensures Loadable(Run(w, events).state.applied)
    ensures !Run(w, events).dirty ==> Whole(Run(w, events).state)
  {
    if events != [] {
      var front, last := events[..|events| - 1], events[|events| - 1];
      RunKeepsWhole(w, front);
      WholeIsInitial(w);
      RunKeepsInv(w, events);
      if last.Reconcile? {
        ReconcileKeepsWhole(Run(w, front).state, last.inp, Instance(last.inp), last.fl);
      }
    }
  }

  /** In every run a successful Reconcile that applied, or that found the cluster not dirty, leaves every object as the
      submitted inputs render it. */
  lemma SuccessMeansRendered(w: World, events: seq<Event>, inp: Inputs, fl: Faults)
    requires InitialWhole(w)
    ensures var before := Run(w, events);
            var r := Reconciled(before.state, inp, fl);
            r.outcome.Applied? || (r.outcome.NoChange? && !before.dirty) ==>
              && Instance(inp).Some? && inp.install.Some?
              && var n := ClampedReplicas(Instance(inp).value.file, inp.install.value.replicas);
              n.Some? && AsRendered(r.state.cluster, Instance(inp).value.file, inp, inp.install.value, n.value)
  {
    WholeIsInitial(w);
    RunKeepsInv(w, events);
    RunKeepsWhole(w, events);
    SuccessRenders(Run(w, events), inp, Instance(inp), fl);
  }

  lemma SuccessRenders(w: World, inp: Inputs, doc: Option<Document>, fl: Faults)
    requires Inv(w) && Loadable(doc) && (!w.dirty ==> Whole(w.state))
    ensures var r := ReconciledWith(w.state, inp, doc, fl);
            r.outcome.Applied? || (r.outcome.NoChange? && !w.dirty) ==>
              && doc.Some? && inp.install.Some?
              && var n := ClampedReplicas(doc.value.file, inp.install.value.replicas);
              n.Some? && AsRendered(r.state.cluster, doc.value.file, inp, inp.install.value, n.value)
  {
    var r := ReconciledWith(w.state, inp, doc, fl);
    StepCases(w.state, inp, doc, fl);
    if r.outcome.Applied? {
      CompleteRenders(w.state, inp, doc, fl);
      RenderedAlike(r.state.cluster, doc.value.file, doc.value.file);
      RenderedIsRendered(r.state.cluster, doc.value.file, inp, inp.install.value,
                         ClampedReplicas(doc.value.file, inp.install.value.replicas).value);
    } else if r.outcome.NoChange? && !w.dirty {
      NoChangeRendersExactly(w.state, inp, doc, fl);
      ReconcileKeepsSync(w.state, inp, doc, fl);
      NoChangeExactly(w.state, inp, doc, fl);
      WholeIsWatched(w.state, inp, doc, fl);
    }
  }

  lemma RenderedIsRendered(c: Cluster, f: File, inp: Inputs, install: Install, n: int)
    requires c == ClusterOf(Rendering(f, inp, install, n)) && InSync(c, f)
    ensures AsRendered(c, f, inp, install, n)
  {
  }

  /** A whole cluster that compares equal has nothing left open. */
  lemma WholeIsWatched(s: State, inp: Inputs, doc: Option<Document>, fl: Faults)
    requires Whole(s) && Loadable(s.applied) && Loadable(doc) && ReconciledWith(s, inp, doc, fl).outcome.NoChange?
    ensures inp.install.Some? && Unwatched(s.cluster, inp, inp.install.value)
  {
    StepCases(s, inp, doc, fl);
    var (applied, ok) := AppliedBefore(s, fl);
    var n := ClampedReplicas(doc.value.file, inp.install.value.replicas).value;
    NoChangeReturnedExactly(s, inp, doc, fl);
    var x :| s.cluster == ClusterOf(x);
    RenderedUnwatched(x, inp, inp.install.value, n);
  }

  lemma RenderedUnwatched(x: Rendering, inp: Inputs, install: Install, n: int)
    requires NothingDiffers(ClusterOf(x), inp, install, n)
    ensures Unwatched(ClusterOf(x), inp, install)
  {
    ReadsBack(install, n, inp, ClusterOf(x));
  }
}
