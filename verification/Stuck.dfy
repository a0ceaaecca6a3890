/** When the ConfigMap controller can succeed at all: a remembered configuration without a cluster name rejects every
    configuration that validation accepts. */
module StuckRuns {
  import opened Common
  import opened Names
  import opened Ini
  import opened ConfigDiff
  import opened Projection
  import opened Pipeline
  import opened Reconciler
  import opened ConfigRuns
  import opened Samples

  const EMPTY_DOCUMENT := Text(EMPTY_FILE, "")

  /** Every configuration that gets as far as being compared has a cluster name. */
  lemma PreparedHasCluster(p: Platform, net: Network, nsx: Option<Secret>, lb: Option<Secret>, f: File)
    requires Prepared(p, net, nsx, lb, f).Some?
    ensures Prepared(p, net, nsx, lb, f).value.Value(Coe, ClusterName) != ""
  {
    var full := FillAll(WithSection(f, Coe), p, net);
    CleanKeepsCoe(full);
    AcceptedHasNsx(p, net, full);
    PathsKeepCluster(Clean(full), nsx, lb);
  }

  lemma PathsKeepCluster(g: File, nsx: Option<Secret>, lb: Option<Secret>)
    requires g.HasSection(NsxV3)
    ensures var h := if nsx.Some? then FillNsxAuth(g, nsx.value) else g;
            var r := if lb.Some? then FillLbCert(h, lb.value) else h;
            r.Value(Coe, ClusterName) == g.Value(Coe, ClusterName)
  {
    if nsx.Some? {
      NsxAuthOptions(g, nsx.value, Coe, ClusterName);
    }
    var h := if nsx.Some? then FillNsxAuth(g, nsx.value) else g;
    SameSections(g, h, NsxV3);
    assert h.Lookup(Coe, ClusterName) == g.Lookup(Coe, ClusterName);
    if lb.Some? {
      LbCertOptions(h, lb.value, Coe, ClusterName);
    }
  }

  lemma InstanceHasCluster(inp: Inputs)
    requires Instance(inp).Some?
    ensures Instance(inp).value.file.Value(Coe, ClusterName) != ""
  {
    PreparedHasCluster(inp.platform, NetworkOf(inp).value, inp.nsxSecret, inp.lbSecret, inp.config.value.file);
  }

  // ---------------------------------------------------------------- a remembered configuration without a cluster name

  /** A configuration without a cluster name is remembered. */
  ghost predicate Nameless(applied: Option<Document>) {
    applied.Some? && applied.value.Text? && applied.value.file.Value(Coe, ClusterName) == ""
  }

  ghost predicate Succeeds(s: State, inp: Inputs, fl: Faults) {
    Reconciled(s, inp, fl).outcome.NoChange? || Reconciled(s, inp, fl).outcome.Applied?
  }

  lemma NameChanged(doc: Document, prev: Document)
    requires doc.Text? && doc.file.Value(Coe, ClusterName) != "" && Nameless(Some(prev))
    ensures Decision(doc, Some(prev)) == ImmutableChanged
  {
  }

  /** Then a Reconcile fails or skips, and changes nothing. */
  lemma StuckStep(s: State, inp: Inputs, fl: Faults)
    requires Nameless(s.applied)
    ensures Reconciled(s, inp, fl).state == s && !Succeeds(s, inp, fl)
  {
    if Instance(inp).Some? {
      InstanceHasCluster(inp);
    }
    StuckWith(s, inp, Instance(inp), fl);
  }

  lemma StuckWith(s: State, inp: Inputs, doc: Option<Document>, fl: Faults)
    requires Nameless(s.applied)
    requires doc.Some? ==> doc.value.Text? && doc.value.file.Value(Coe, ClusterName) != ""
    ensures var r := ReconciledWith(s, inp, doc, fl); r.state == s && (r.outcome.Failed? || r.outcome.Skipped?)
  {
    if doc.Some? {
      NameChanged(doc.value, s.applied.value);
    }
  }

  /** So the operator is stuck: until it is restarted no Reconcile succeeds or applies anything, whatever is submitted
      and whatever others edit. */
  lemma {:induction false} StuckUntilRestart(w: World, events: seq<Event>, inp: Inputs, fl: Faults)
    requires Nameless(w.state.applied)
    requires forall e :: e in events ==> !e.Restart?
    ensures var s := Run(w, events).state;
            s.applied == w.state.applied && Reconciled(s, inp, fl).state == s && !Succeeds(s, inp, fl)
  {
    if events != [] {
      var last := events[|events| - 1];
      if last.Reconcile? {
        StuckUntilRestart(w, events[..|events| - 1], last.inp, last.fl);
      } else {
        StuckUntilRestart(w, events[..|events| - 1], inp, fl);
      }
    }
    StuckStep(Run(w, events).state, inp, fl);
  }

  // ---------------------------------------------------------------- what a restart recovers

  /** Both ConfigMaps are there, and one does not load or no cluster name is recovered from them. */
  ghost predicate RecoversNameless(c: Cluster) {
    && c.ncpConfig.Some? && c.agentConfig.Some?
    && (|| c.ncpConfig.value.Malformed? || c.agentConfig.value.Malformed?
        || Recover(c.ncpConfig.value.file, c.agentConfig.value.file).Value(Coe, ClusterName) == "")
  }

  lemma RecoveredNameless(s: State, fl: Faults)
    requires s.applied.None?
    ensures Nameless(AppliedBefore(s, fl).0) <==> !fl.ncpConfig && !fl.agentConfig && RecoversNameless(s.cluster)
    ensures !AppliedBefore(s, fl).1 ==> Nameless(AppliedBefore(s, fl).0)
    ensures AppliedBefore(s, fl).0.Some? ==> AppliedBefore(s, fl).0.value.Text?
  {
    assert EMPTY_FILE.Value(Coe, ClusterName) == "";
  }

  /** A Reconcile that recovers such a configuration fails and touches nothing in the cluster. */
  lemma RecoveredStuck(s: State, inp: Inputs, fl: Faults)
    requires s.applied.None? && Nameless(AppliedBefore(s, fl).0)
    ensures var r := Reconciled(s, inp, fl);
            && r.state.cluster == s.cluster && (r.state.applied.None? || Nameless(r.state.applied))
            && !Succeeds(s, inp, fl)
  {
    if Instance(inp).Some? {
      InstanceHasCluster(inp);
    }
    RecoveredStuckWith(s, inp, Instance(inp), fl, AppliedBefore(s, fl).0, AppliedBefore(s, fl).1);
  }

  lemma RecoveredStuckWith(s: State, inp: Inputs, doc: Option<Document>, fl: Faults,
                           applied: Option<Document>, ok: bool)
    requires s.applied.None? && AppliedBefore(s, fl) == (applied, ok) && Nameless(applied)
    requires doc.Some? ==> doc.value.Text? && doc.value.file.Value(Coe, ClusterName) != ""
    ensures var r := ReconciledWith(s, inp, doc, fl);
            && r.state.cluster == s.cluster && (r.state.applied.None? || r.state.applied == applied)
            && (r.outcome.Failed? || r.outcome.Skipped?)
  {
    if doc.Some? {
      NameChanged(doc.value, applied.value);
    }
  }

  /** Restarts do not help while the ConfigMaps stay like that and can be read: over every such run the operator stays
      stuck. */
  lemma {:induction false} StuckAcrossRestarts(w: World, events: seq<Event>)
    requires (w.state.applied.None? || Nameless(w.state.applied)) && RecoversNameless(w.state.cluster)
    requires forall e :: e in events && e.Reconcile? ==> !e.fl.ncpConfig && !e.fl.agentConfig
    requires forall e :: e in events && e.OutsideEdit? ==> RecoversNameless(e.cluster)
    ensures var s := Run(w, events).state;
            && (s.applied.None? || Nameless(s.applied)) && RecoversNameless(s.cluster)
            && forall inp, fl: Faults :: !fl.ncpConfig && !fl.agentConfig ==> !Succeeds(s, inp, fl)
  {
    if events != [] {
      var front, last := events[..|events| - 1], events[|events| - 1];
      StuckAcrossRestarts(w, front);
      if last.Reconcile? {
        BlockedStep(Run(w, front).state, last.inp, last.fl);
      }
    }
    var s := Run(w, events).state;
    forall inp, fl: Faults | !fl.ncpConfig && !fl.agentConfig ensures !Succeeds(s, inp, fl) {
      BlockedStep(s, inp, fl);
    }
  }

  lemma BlockedStep(s: State, inp: Inputs, fl: Faults)
    requires (s.applied.None? || Nameless(s.applied)) && RecoversNameless(s.cluster)
    requires !fl.ncpConfig && !fl.agentConfig
    ensures var r := Reconciled(s, inp, fl);
            && (r.state.applied.None? || Nameless(r.state.applied)) && r.state.cluster == s.cluster
            && !Succeeds(s, inp, fl)
  {
    if s.applied.None? {
      RecoveredNameless(s, fl);
      RecoveredStuck(s, inp, fl);
    } else {
      StuckStep(s, inp, fl);
    }
  }

  // ---------------------------------------------------------------- the exact conditions

  lemma FlagsSucceed(s: State, inp: Inputs, doc: Document, n: int, v: Verdict)
    requires doc.Text? && v.Flags? && inp.install.Some?
    ensures var r := Compared(s, inp, inp.install.value, n, doc, v, NO_FAULTS);
            r.outcome.Applied? || r.outcome.NoChange?
  {
    ComparedCases(s, inp, inp.install.value, n, doc, v, NO_FAULTS);
  }

  /** A sample with the same immutable values as `p`. */
  function SampleLike(p: File): Params {
    Params(p.Value(Coe, ClusterName), "m", "h", p.Value(NsxV3, L4LbAutoScaling))
  }

  lemma SampleImmutable(f: File, x: Params)
    requires IsSample(f, x)
    ensures f.Value(Coe, ClusterName) == x.cluster && f.Value(NsxV3, L4LbAutoScaling) == x.scaling
  {
  }

  /** Against a configuration with a cluster name, a sample with the same immutable values succeeds. */
  lemma SampleSucceeds(s: State, fl: Faults, applied: Option<Document>, x: Params)
    requires fl == NO_FAULTS.(ncpConfig := fl.ncpConfig, agentConfig := fl.agentConfig)
    requires AppliedBefore(s, fl) == (applied, true) && x.cluster != "" && x.managers != ""
    requires applied.Some? ==> applied.value.Text? && x == SampleLike(applied.value.file)
    ensures Succeeds(s, Submitting(Sample(x), "img", PLAIN), fl)
  {
    var inp, doc := Submitting(Sample(x), "img", PLAIN), Text(Sample(x), "");
    SampleInstance(x, "img", PLAIN);
    SampleImmutable(Sample(x), x);
    MatchingSucceeds(s, inp, doc, fl, applied, Decision(doc, applied));
  }

  lemma MatchingSucceeds(s: State, inp: Inputs, doc: Document, fl: Faults, applied: Option<Document>, v: Verdict)
    requires fl == NO_FAULTS.(ncpConfig := fl.ncpConfig, agentConfig := fl.agentConfig)
    requires inp.install.Some? && inp.config.Some? && NetworkOf(inp).Some? && doc.Text?
    requires ClampedReplicas(doc.file, inp.install.value.replicas).Some?
    requires AppliedBefore(s, fl) == (applied, true) && v == Decision(doc, applied)
    requires applied.Some? ==> applied.value.Text? && !ImmutableDiffers(doc.file, applied.value.file)
    ensures var r := ReconciledWith(s, inp, Some(doc), fl); r.outcome.Applied? || r.outcome.NoChange?
  {
    var n := ClampedReplicas(doc.file, inp.install.value.replicas).value;
    ReconciledIs(s, inp, doc, n, applied, true, v, fl);
    FlagsSucceed(State(applied, s.cluster), inp, doc, n, v);
  }

  /** With a configuration remembered, some Reconcile can succeed if and only if it has a cluster name. */
  lemma SucceedsExactly(s: State)
    requires s.applied.Some? && s.applied.value.Text?
    ensures (exists inp, fl :: Succeeds(s, inp, fl)) <==> s.applied.value.file.Value(Coe, ClusterName) != ""
  {
    if s.applied.value.file.Value(Coe, ClusterName) != "" {
      SampleSucceeds(s, NO_FAULTS, s.applied, SampleLike(s.applied.value.file));
    } else {
      forall inp, fl ensures !Succeeds(s, inp, fl) { StuckStep(s, inp, fl); }
    }
  }

  /** After a restart, some Reconcile can succeed if and only if a ConfigMap is missing or cannot be read, or both load
      and a cluster name is recovered from them. */
  lemma SucceedsAfterRestartExactly(s: State, ncpFails: bool, agentFails: bool)
    requires s.applied.None?
    ensures var fl := NO_FAULTS.(ncpConfig := ncpFails, agentConfig := agentFails);
            (exists inp :: Succeeds(s, inp, fl)) <==> ncpFails || agentFails || !RecoversNameless(s.cluster)
  {
    var fl := NO_FAULTS.(ncpConfig := ncpFails, agentConfig := agentFails);
    var (applied, ok) := AppliedBefore(s, fl);
    RecoveredNameless(s, fl);
    if Nameless(applied) {
      forall inp ensures !Succeeds(s, inp, fl) { RecoveredStuck(s, inp, fl); }
    } else {
      var x := if applied.Some? then SampleLike(applied.value.file) else Params("c", "m", "h", "");
      SampleSucceeds(s, fl, applied, x);
    }
  }

  /** After a restart, a ConfigMap that does not load makes the Reconcile fail and the operator remember the empty
      configuration. */
  lemma MalformedRemembersEmpty(s: State, inp: Inputs, fl: Faults)
    requires s.applied.None? && s.cluster.ncpConfig.Some? && s.cluster.agentConfig.Some?
    requires s.cluster.ncpConfig.value.Malformed? || s.cluster.agentConfig.value.Malformed?
    requires !fl.inputs && !fl.ncpConfig && !fl.agentConfig
    requires inp.install.Some? && Instance(inp).Some?
    requires ClampedReplicas(Instance(inp).value.file, inp.install.value.replicas).Some?
    ensures Reconciled(s, inp, fl) == Step(State(Some(EMPTY_DOCUMENT), s.cluster), Failed, NotStarted)
  {
    MalformedWith(s, inp, Instance(inp), fl);
  }

  lemma MalformedWith(s: State, inp: Inputs, doc: Option<Document>, fl: Faults)
    requires s.applied.None? && s.cluster.ncpConfig.Some? && s.cluster.agentConfig.Some?
    requires s.cluster.ncpConfig.value.Malformed? || s.cluster.agentConfig.value.Malformed?
    requires !fl.inputs && !fl.ncpConfig && !fl.agentConfig
    requires inp.install.Some? && inp.config.Some? && NetworkOf(inp).Some? && doc.Some? && doc.value.Text?
    requires ClampedReplicas(doc.value.file, inp.install.value.replicas).Some?
    ensures ReconciledWith(s, inp, doc, fl) == Step(State(Some(EMPTY_DOCUMENT), s.cluster), Failed, NotStarted)
  {
  }

  /** A Reconcile after a restart that gets as far as recovering remembers a configuration without a cluster name
      exactly when both ConfigMaps are read and that is what they hold. */
  lemma RemembersNamelessExactly(s: State, inp: Inputs, fl: Faults)
    requires s.applied.None? && !fl.inputs && inp.install.Some? && Instance(inp).Some?
    requires ClampedReplicas(Instance(inp).value.file, inp.install.value.replicas).Some?
    ensures Nameless(Reconciled(s, inp, fl).state.applied) <==>
            !fl.ncpConfig && !fl.agentConfig && RecoversNameless(s.cluster)
  {
    InstanceHasCluster(inp);
    RecoveredNameless(s, fl);
    RemembersWith(s, inp, Instance(inp).value, fl, AppliedBefore(s, fl).0, AppliedBefore(s, fl).1);
  }

  lemma RemembersWith(s: State, inp: Inputs, doc: Document, fl: Faults, applied: Option<Document>, ok: bool)
    requires !fl.inputs && inp.install.Some? && inp.config.Some? && NetworkOf(inp).Some?
    requires doc.Text? && doc.file.Value(Coe, ClusterName) != ""
    requires ClampedReplicas(doc.file, inp.install.value.replicas).Some? && AppliedBefore(s, fl) == (applied, ok)
    ensures Nameless(ReconciledWith(s, inp, Some(doc), fl).state.applied) <==> Nameless(applied)
  {
    var n := ClampedReplicas(doc.file, inp.install.value.replicas).value;
    var v := Decision(doc, applied);
    ReconciledIs(s, inp, doc, n, applied, ok, v, fl);
    ComparedCases(State(applied, s.cluster), inp, inp.install.value, n, doc, v, fl);
    if Nameless(applied) {
      NameChanged(doc, applied.value);
    }
  }
}
