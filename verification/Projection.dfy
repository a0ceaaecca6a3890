/** Rendering the operator configuration into the two ConfigMaps and
    recovering it from them after a process restart. */
module Projection {
  import opened Common
  import opened Names
  import opened Ini
  import opened ConfigDiff

  /** Copies one section, if the source has it. */
  function CopySection(dest: File, src: File, s: Section): (r: File)
    ensures forall t :: r.HasSection(t) <==> dest.HasSection(t) || (t == s && src.HasSection(s))
    ensures forall t :: r.Contents(t) == if t == s then dest.Contents(s) + src.Contents(s) else dest.Contents(t)
  {
    if !src.HasSection(s) then
      assert dest.Contents(s) + map[] == dest.Contents(s);
      dest
    else
      var base := WithSection(dest, s);
      var r := IniFile(base.order, base.body[s := base.body[s] + src.body[s]]);
      r
  }

  /** The sections of `src` named in `sections`, in that order, after DEFAULT. */
  function Project(src: File, sections: seq<Section>): File {
    if sections == [] then EMPTY_FILE
    else CopySection(Project(src, sections[..|sections| - 1]), src, sections[|sections| - 1])
  }

  /** A projection has exactly the listed sections of its source, with all their options. */
  lemma {:induction false} ProjectExactly(src: File, sections: seq<Section>, s: Section)
    ensures Project(src, sections).HasSection(s) <==> s == DEFAULT || (s in sections && src.HasSection(s))
    ensures Project(src, sections).Contents(s) == if s in sections then src.Contents(s) else map[]
  {
    if sections != [] {
      var front, last := sections[..|sections| - 1], sections[|sections| - 1];
      ProjectExactly(src, front, s);
      assert s in sections <==> s in front || s == last;
      if s == last {
        MergeSame(Project(src, front).Contents(last), src.Contents(last));
      }
    }
  }

  lemma MergeSame(a: Options, b: Options)
    requires a == map[] || a == b
    ensures a + b == b
  {
  }

  lemma ProjectNext(src: File, sections: seq<Section>, i: nat)
    requires i < |sections|
    ensures Project(src, sections[..i + 1]) == CopySection(Project(src, sections[..i]), src, sections[i])
  {
    assert sections[..i + 1][..i] == sections[..i];
  }

  /** Projections only depend on the listed sections. */
  lemma {:induction false} ProjectCongruent(a: File, b: File, sections: seq<Section>)
    requires forall s :: s in sections ==> a.HasSection(s) == b.HasSection(s) && a.Contents(s) == b.Contents(s)
    ensures Project(a, sections) == Project(b, sections)
  {
    if sections != [] {
      ProjectCongruent(a, b, sections[..|sections| - 1]);
    }
  }

  /** `generateConfigMap` */
  method GenerateConfigMap(src: File, sections: seq<Section>) returns (dest: File)
    ensures dest == Project(src, sections)
  {
    var cfg := new Config(EMPTY_FILE);
    for i := 0 to |sections|
      invariant cfg.file == Project(src, sections[..i])
    {
      ProjectNext(src, sections, i);
      var name := sections[i];
      if src.HasSection(name) {
        cfg.file := CopySection(cfg.file, src, name);
      }
    }
    assert sections[..|sections|] == sections;
    dest := cfg.file;
  }

  /** Both rendered files as one, the nsx-ncp ConfigMap taking precedence. */
  function Combine(ncp: File, agent: File): (r: File)
    ensures forall s :: r.HasSection(s) <==> ncp.HasSection(s) || agent.HasSection(s)
    ensures forall s :: r.Contents(s) == if ncp.HasSection(s) then ncp.Contents(s) else agent.Contents(s)
  {
    CombinedOrder(ncp, agent);
    IniFile(ncp.order + Others(agent.order, ncp), agent.body + ncp.body)
  }

  lemma CombinedOrder(ncp: File, agent: File)
    ensures IniFile(ncp.order + Others(agent.order, ncp), agent.body + ncp.body).Valid()
  {
    var extra := Others(agent.order, ncp);
    ConcatDistinct(ncp.order, extra);
    assert forall s :: s in ncp.order + extra <==> s in agent.body + ncp.body;
  }

  function Others(order: seq<Section>, ncp: File): (r: seq<Section>)
    ensures forall s :: s in r <==> s in order && !ncp.HasSection(s)
    ensures NoDuplicates(order) ==> NoDuplicates(r)
  {
    if order == [] then []
    else
      var rest := Others(order[1..], ncp);
      assert NoDuplicates(order) ==> NoDuplicates(order[1..]) && order[0] !in rest;
      if ncp.HasSection(order[0]) then rest else [order[0]] + rest
  }

  function Recover(ncp: File, agent: File): File {
    Project(Combine(ncp, agent), OPERATOR_SECTIONS)
  }

  /** `GenerateOperatorConfigMap` on loaded files */
  method GenerateOperatorConfigMap(ncp: File, agent: File) returns (op: File)
    ensures op == Recover(ncp, agent)
  {
    op := CombineSections(ncp, agent, OPERATOR_SECTIONS);
  }

  method CombineSections(ncp: File, agent: File, sections: seq<Section>) returns (op: File)
    ensures op == Project(Combine(ncp, agent), sections)
  {
    var cfg := new Config(EMPTY_FILE);
    for i := 0 to |sections|
      invariant cfg.file == Project(Combine(ncp, agent), sections[..i])
    {
      ProjectNext(Combine(ncp, agent), sections, i);
      var sec := if ncp.HasSection(sections[i]) then ncp else agent;
      CopyFromEither(cfg.file, ncp, agent, sections[i]);
      if sec.HasSection(sections[i]) {
        cfg.file := CopySection(cfg.file, sec, sections[i]);
      }
    }
    assert sections[..|sections|] == sections;
    op := cfg.file;
  }

  lemma CopyFromEither(dest: File, ncp: File, agent: File, s: Section)
    ensures var sec := if ncp.HasSection(s) then ncp else agent;
            CopySection(dest, Combine(ncp, agent), s) == if sec.HasSection(s) then CopySection(dest, sec, s) else dest
  {
    var both := Combine(ncp, agent);
    assert both.Contents(s) == (if ncp.HasSection(s) then ncp else agent).Contents(s);
  }

  // ---------------------------------------------------------------- restart transparency

  /** Projecting onto the two ConfigMaps and recombining gives back exactly the operator's sections. */
  lemma RecoverProjections(f: File)
    ensures Recover(Project(f, NCP_SECTIONS), Project(f, AGENT_SECTIONS)) == Project(f, OPERATOR_SECTIONS)
  {
    var ncp, agent := Project(f, NCP_SECTIONS), Project(f, AGENT_SECTIONS);
    forall s | s in OPERATOR_SECTIONS
      ensures Combine(ncp, agent).HasSection(s) == f.HasSection(s) && Combine(ncp, agent).Contents(s) == f.Contents(s)
    {
      ProjectExactly(f, NCP_SECTIONS, s);
      ProjectExactly(f, AGENT_SECTIONS, s);
      assert s in NCP_SECTIONS || s in AGENT_SECTIONS;
    }
    ProjectCongruent(Combine(ncp, agent), f, OPERATOR_SECTIONS);
  }

  /** `a` and `b` render alike: every operator section has the same effective options. */
  ghost predicate SameOperatorOptions(a: File, b: File) {
    forall s, k :: s in OPERATOR_SECTIONS ==> Effective(a, s, k) == Effective(b, s, k)
  }

  /** Which sections go to which ConfigMap. */
  lemma RenderedSections(s: Section)
    ensures s in NCP_SECTIONS <==> s.DEFAULT? || s.Ha? || s.K8s? || s.Coe? || s.NsxV3? || s.Vc?
    ensures s in AGENT_SECTIONS <==> s.DEFAULT? || s.K8s? || s.Coe? || s.NsxNodeAgent? || s.NsxKubeProxy?
    ensures s in OPERATOR_SECTIONS <==> s in NCP_SECTIONS || s in AGENT_SECTIONS
  {
  }

  /** Same option values everywhere, up to empty sections and absent-versus-empty immutable options. */
  ghost predicate SameOptions(a: File, b: File) {
    forall s, k :: Effective(a, s, k) == Effective(b, s, k)
  }

  lemma ProjectedOption(f: File, sections: seq<Section>, s: Section, k: Key)
    ensures s in sections ==> Effective(Project(f, sections), s, k) == Effective(f, s, k)
    ensures s !in sections ==> Effective(Project(f, sections), s, k) == if Immutable(s, k) then Some("") else None
  {
    ProjectExactly(f, sections, s);
  }

  lemma SameImmutable(a: File, b: File)
    requires SameOperatorOptions(a, b)
    ensures !ImmutableDiffers(a, b)
  {
    assert Coe in OPERATOR_SECTIONS && NsxV3 in OPERATOR_SECTIONS;
    assert Effective(a, Coe, ClusterName) == Effective(b, Coe, ClusterName);
    assert Effective(a, NsxV3, L4LbAutoScaling) == Effective(b, NsxV3, L4LbAutoScaling);
  }

  lemma SameProjections(a: File, b: File)
    requires SameOperatorOptions(a, b)
    ensures SameOptions(Project(a, NCP_SECTIONS), Project(b, NCP_SECTIONS))
    ensures SameOptions(Project(a, AGENT_SECTIONS), Project(b, AGENT_SECTIONS))
  {
    assert forall s :: s in NCP_SECTIONS ==> s in OPERATOR_SECTIONS;
    assert forall s :: s in AGENT_SECTIONS ==> s in OPERATOR_SECTIONS;
    forall s, k ensures Effective(Project(a, NCP_SECTIONS), s, k) == Effective(Project(b, NCP_SECTIONS), s, k) {
      ProjectedOption(a, NCP_SECTIONS, s, k);
      ProjectedOption(b, NCP_SECTIONS, s, k);
    }
    forall s, k ensures Effective(Project(a, AGENT_SECTIONS), s, k) == Effective(Project(b, AGENT_SECTIONS), s, k) {
      ProjectedOption(a, AGENT_SECTIONS, s, k);
      ProjectedOption(b, AGENT_SECTIONS, s, k);
    }
  }

  /** No flag is raised exactly when every operator section keeps its effective options. */
  lemma QuietMeansSameOptions(cur: File, prev: File)
    ensures FlagsFor(cur, prev) == NOTHING <==> SameOperatorOptions(cur, prev)
  {
    QuietExactly(cur, prev);
    if FlagsFor(cur, prev) == NOTHING {
      forall s, k | s in OPERATOR_SECTIONS ensures Effective(cur, s, k) == Effective(prev, s, k) {
        assert !SectionDiffers(cur, prev, s);
        assert !OptionDiffers(cur, prev, s, k);
      }
    }
    if SameOperatorOptions(cur, prev) {
      forall s | s in OPERATOR_SECTIONS ensures !SectionDiffers(cur, prev, s) {
      }
    }
  }

  /** No flag is raised exactly when both rendered ConfigMaps would keep all their option values. */
  lemma QuietMeansSameRendering(cur: File, prev: File)
    ensures FlagsFor(cur, prev) == NOTHING <==> SameOperatorOptions(cur, prev)
    ensures FlagsFor(cur, prev) == NOTHING <==>
            && SameOptions(Project(cur, NCP_SECTIONS), Project(prev, NCP_SECTIONS))
            && SameOptions(Project(cur, AGENT_SECTIONS), Project(prev, AGENT_SECTIONS))
  {
    QuietMeansSameOptions(cur, prev);
    if FlagsFor(cur, prev) == NOTHING {
      SameProjections(cur, prev);
    }
    if SameOptions(Project(cur, NCP_SECTIONS), Project(prev, NCP_SECTIONS)) &&
       SameOptions(Project(cur, AGENT_SECTIONS), Project(prev, AGENT_SECTIONS)) {
      forall s, k | s in OPERATOR_SECTIONS ensures Effective(cur, s, k) == Effective(prev, s, k) {
        var table := if s in NCP_SECTIONS then NCP_SECTIONS else AGENT_SECTIONS;
        assert s in table;
        ProjectedOption(cur, table, s, k);
        ProjectedOption(prev, table, s, k);
      }
    }
  }

  /** Restart transparency: against its own recovered form no configuration raises an error or a flag. */
  lemma RestartTransparent(f: File, layout: string)
    ensures Decision(Text(f, layout), Some(Text(Recover(Project(f, NCP_SECTIONS), Project(f, AGENT_SECTIONS)), "")))
            == Flags(NOTHING)
  {
    var g := Project(f, OPERATOR_SECTIONS);
    RecoverProjections(f);
    RecoveredOptions(f);
    QuietMeansSameRendering(f, g);
    SameImmutable(f, g);
    DecisionWhenQuiet(Text(f, layout), Text(g, ""));
  }

  lemma RecoveredOptions(f: File)
    ensures SameOperatorOptions(f, Project(f, OPERATOR_SECTIONS))
  {
    forall s, k | s in OPERATOR_SECTIONS ensures Effective(f, s, k) == Effective(Project(f, OPERATOR_SECTIONS), s, k) {
      ProjectedOption(f, OPERATOR_SECTIONS, s, k);
    }
  }

  /** What is recovered from two ConfigMaps rendered from `f` renders like `f`. */
  lemma RecoveredRendersAlike(f: File)
    ensures SameOperatorOptions(Recover(Project(f, NCP_SECTIONS), Project(f, AGENT_SECTIONS)), f)
  {
    RecoverProjections(f);
    RecoveredOptions(f);
  }
}
