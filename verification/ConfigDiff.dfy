/** Comparing the submitted configuration with the last applied one
    (`NeedApplyChange` and its helpers). */
module ConfigDiff {
  import opened Common
  import opened Names
  import opened Ini

  datatype NeedChange = NeedChange(ncp: bool, agent: bool, bootstrap: bool)

  datatype Verdict = Flags(change: NeedChange) | LoadFailed | ImmutableChanged

  const NOTHING := NeedChange(false, false, false)
  const EVERYTHING := NeedChange(true, true, true)

  // ---------------------------------------------------------------- specification

  ghost predicate Immutable(s: Section, k: Key) {
    (s.Coe? && k.ClusterName?) || (s.NsxV3? && k.L4LbAutoScaling?)
  }

  /** What an option is worth to a comparison: for the immutable options,
      absent and empty are the same. */
  ghost function Effective(f: File, s: Section, k: Key): Option<string> {
    if Immutable(s, k) then Some(f.Value(s, k)) else f.Lookup(s, k)
  }

  ghost predicate OptionDiffers(cur: File, prev: File, s: Section, k: Key) {
    Effective(cur, s, k) != Effective(prev, s, k)
  }

  ghost predicate SectionDiffers(cur: File, prev: File, s: Section) {
    exists k :: OptionDiffers(cur, prev, s, k)
  }

  /** Sections holding an immutable option count as present in every file. */
  ghost predicate Present(f: File, s: Section) {
    f.HasSection(s) || s == Coe || s == NsxV3
  }

  ghost predicate ImmutableDiffers(cur: File, prev: File) {
    || cur.Value(Coe, ClusterName) != prev.Value(Coe, ClusterName)
    || cur.Value(NsxV3, L4LbAutoScaling) != prev.Value(NsxV3, L4LbAutoScaling)
  }

  /** A differing section matters to a table of restart options when one of the listed
      options differs, or when the section as a whole came or went. */
  ghost predicate TableHit(options: map<Section, seq<Key>>, cur: File, prev: File, s: Section) {
    && s in options
    && SectionDiffers(cur, prev, s)
    && (Present(cur, s) != Present(prev, s) || exists k :: k in options[s] && OptionDiffers(cur, prev, s, k))
  }

  ghost predicate NcpNeeded(cur: File, prev: File) {
    exists s :: s in NCP_SECTIONS && SectionDiffers(cur, prev, s)
  }

  ghost predicate AgentNeeded(cur: File, prev: File) {
    || (exists s :: s in AGENT_RESTART_SECTIONS && SectionDiffers(cur, prev, s))
    || (exists s :: TableHit(AGENT_RESTART_OPTION_KEYS, cur, prev, s))
  }

  ghost predicate BootstrapNeeded(cur: File, prev: File) {
    exists s :: TableHit(BOOTSTRAP_RESTART_OPTION_KEYS, cur, prev, s)
  }

  ghost function FlagsFor(cur: File, prev: File): NeedChange {
    NeedChange(NcpNeeded(cur, prev), AgentNeeded(cur, prev), BootstrapNeeded(cur, prev))
  }

  ghost function Decision(curr: Document, prev: Option<Document>): Verdict {
    if prev.None? then Flags(EVERYTHING)
    else if curr == prev.value then Flags(NOTHING)
    else if curr.Malformed? || prev.value.Malformed? then LoadFailed
    else if ImmutableDiffers(curr.file, prev.value.file) then ImmutableChanged
    else Flags(FlagsFor(curr.file, prev.value.file))
  }

  // ---------------------------------------------------------------- properties

  /** Restarting bootstrap always restarts the agent too. */
  lemma BootstrapImpliesAgent(cur: File, prev: File)
    ensures BootstrapNeeded(cur, prev) ==> AgentNeeded(cur, prev)
  {
    if BootstrapNeeded(cur, prev) {
      var s :| TableHit(BOOTSTRAP_RESTART_OPTION_KEYS, cur, prev, s);
      assert s in AGENT_RESTART_SECTIONS && SectionDiffers(cur, prev, s);
    }
  }

  /** No flag is raised exactly when every section the operator renders is unchanged. */
  lemma QuietExactly(cur: File, prev: File)
    ensures FlagsFor(cur, prev) == NOTHING <==>
            forall s :: s in OPERATOR_SECTIONS ==> !SectionDiffers(cur, prev, s)
  {
    if FlagsFor(cur, prev) == NOTHING {
      forall s | s in OPERATOR_SECTIONS ensures !SectionDiffers(cur, prev, s) {
        assert s in NCP_SECTIONS || s in AGENT_RESTART_SECTIONS;
      }
    }
    if forall s :: s in OPERATOR_SECTIONS ==> !SectionDiffers(cur, prev, s) {
      assert forall s :: s in NCP_SECTIONS ==> s in OPERATOR_SECTIONS;
      assert forall s :: s in AGENT_RESTART_SECTIONS ==> s in OPERATOR_SECTIONS;
      assert forall s :: s in AGENT_RESTART_OPTION_KEYS ==> s in OPERATOR_SECTIONS;
      assert forall s :: s in BOOTSTRAP_RESTART_OPTION_KEYS ==> s in OPERATOR_SECTIONS;
    }
  }

  /** The shortcut on equal texts gives what the full comparison would. */
  lemma ShortcutAgrees(f: File)
    ensures !ImmutableDiffers(f, f) && FlagsFor(f, f) == NOTHING
  {
    QuietExactly(f, f);
  }

  lemma DecisionWhenQuiet(cur: Document, prev: Document)
    requires cur.Text? && prev.Text?
    requires !ImmutableDiffers(cur.file, prev.file) && FlagsFor(cur.file, prev.file) == NOTHING
    ensures Decision(cur, Some(prev)) == Flags(NOTHING)
  {
  }

  // ---------------------------------------------------------------- implementation

  /** The file after reading its first `n` immutable options. */
  ghost function TouchUpTo(f: File, n: nat): File
    requires n <= |IMMUTABLE_FIELDS|
  {
    if n == 0 then f else Touch(TouchUpTo(f, n - 1), IMMUTABLE_FIELDS[n - 1].sec, IMMUTABLE_FIELDS[n - 1].key)
  }

  ghost function TouchBoth(f: File): File { TouchUpTo(f, 2) }

  lemma {:induction false} TouchKeepsValue(f: File, n: nat, s: Section, k: Key)
    requires n <= |IMMUTABLE_FIELDS|
    ensures TouchUpTo(f, n).Value(s, k) == f.Value(s, k)
  {
    if n > 0 {
      TouchKeepsValue(f, n - 1, s, k);
      TouchValue(TouchUpTo(f, n - 1), IMMUTABLE_FIELDS[n - 1].sec, IMMUTABLE_FIELDS[n - 1].key, s, k);
    }
  }

  lemma TouchValue(f: File, sec: Section, key: Key, s: Section, k: Key)
    ensures Touch(f, sec, key).Value(s, k) == f.Value(s, k)
  {
    var g := Touch(f, sec, key);
    assert g.Lookup(s, k) == f.Lookup(s, k) || g.Lookup(s, k) == Some(f.Value(s, k));
  }

  lemma TouchBothIs(f: File)
    ensures TouchBoth(f) == Touch(Touch(f, Coe, ClusterName), NsxV3, L4LbAutoScaling)
  {
    assert TouchUpTo(f, 1) == Touch(f, Coe, ClusterName);
  }

  /** After the immutable check both files show the effective value of every option. */
  lemma TouchedLookup(f: File, s: Section)
    ensures forall k :: TouchBoth(f).Lookup(s, k) == Effective(f, s, k)
    ensures TouchBoth(f).HasSection(s) <==> Present(f, s)
  {
    TouchBothIs(f);
  }

  lemma TouchedDiffers(cur: File, prev: File, s: Section)
    ensures TouchBoth(cur).Contents(s) != TouchBoth(prev).Contents(s) <==> SectionDiffers(cur, prev, s)
  {
    TouchedLookup(cur, s);
    TouchedLookup(prev, s);
    if !SectionDiffers(cur, prev, s) {
      forall k ensures TouchBoth(cur).Lookup(s, k) == TouchBoth(prev).Lookup(s, k) {
        assert !OptionDiffers(cur, prev, s, k);
      }
      SameOptionsSameSection(TouchBoth(cur), TouchBoth(prev), s);
    }
  }

  /** Reads the immutable options of both files; the reads create missing sections and options. */
  method ImmutableFieldChanged(cur: Config, prev: Config) returns (changed: bool)
    requires cur != prev
    modifies cur, prev
    ensures changed <==> ImmutableDiffers(old(cur.file), old(prev.file))
    ensures !changed ==> cur.file == TouchBoth(old(cur.file)) && prev.file == TouchBoth(old(prev.file))
  {
    for i := 0 to |IMMUTABLE_FIELDS|
      invariant cur.file == TouchUpTo(old(cur.file), i) && prev.file == TouchUpTo(old(prev.file), i)
      invariant forall j :: 0 <= j < i ==>
        old(cur.file).Value(IMMUTABLE_FIELDS[j].sec, IMMUTABLE_FIELDS[j].key) ==
        old(prev.file).Value(IMMUTABLE_FIELDS[j].sec, IMMUTABLE_FIELDS[j].key)
    {
      var field := IMMUTABLE_FIELDS[i];
      TouchKeepsValue(old(cur.file), i, field.sec, field.key);
      TouchKeepsValue(old(prev.file), i, field.sec, field.key);
      var a := cur.Key(field.sec, field.key);
      var b := prev.Key(field.sec, field.key);
      if a != b {
        return true;
      }
    }
    assert IMMUTABLE_FIELDS[0] == Field(Coe, ClusterName) && IMMUTABLE_FIELDS[1] == Field(NsxV3, L4LbAutoScaling);
    changed := false;
  }

  /** The sections whose contents differ, missing sections counting as empty. */
  method DiffSections(cur: File, prev: File) returns (diffSecs: seq<Section>)
    ensures forall s :: s in diffSecs <==> cur.Contents(s) != prev.Contents(s)
    ensures NoDuplicates(diffSecs)
  {
    diffSecs := [];
    for i := 0 to |cur.order|
      invariant forall s :: s in diffSecs <==> s in cur.order[..i] && cur.Contents(s) != prev.Contents(s)
      invariant NoDuplicates(diffSecs)
    {
      var name := cur.order[i];
      if !prev.HasSection(name) {
        if |cur.Contents(name)| != 0 {
          diffSecs := diffSecs + [name];
        }
      } else if cur.Contents(name) != prev.Contents(name) {
        diffSecs := diffSecs + [name];
      }
    }
    for i := 0 to |prev.order|
      invariant forall s :: s in diffSecs <==>
        (s in cur.order || s in prev.order[..i]) && cur.Contents(s) != prev.Contents(s)
      invariant NoDuplicates(diffSecs)
    {
      var name := prev.order[i];
      if !cur.HasSection(name) {
        if |prev.Contents(name)| != 0 {
          diffSecs := diffSecs + [name];
        }
      }
    }
  }

  method CheckOptionsChange(options: map<Section, seq<Key>>, sec: Section, prev: File, cur: File)
    returns (changed: bool)
    ensures changed <==>
      && sec in options
      && (prev.HasSection(sec) != cur.HasSection(sec) ||
          exists k :: k in options[sec] && prev.Lookup(sec, k) != cur.Lookup(sec, k))
  {
    if sec !in options {
      return false;
    }
    if prev.HasSection(sec) != cur.HasSection(sec) {
      return true;
    }
    for i := 0 to |options[sec]|
      invariant forall k :: k in options[sec][..i] ==> prev.Lookup(sec, k) == cur.Lookup(sec, k)
    {
      var key := options[sec][i];
      if prev.Lookup(sec, key).Some? != cur.Lookup(sec, key).Some? {
        return true;
      }
      if prev.Lookup(sec, key).Some? && cur.Lookup(sec, key).Some? &&
         prev.Value(sec, key) != cur.Value(sec, key) {
        return true;
      }
    }
    changed := false;
  }

  /** The flags a single differing section raises. */
  ghost function FlagsOf(cur: File, prev: File, s: Section): NeedChange {
    NeedChange(s in NCP_SECTIONS,
               s in AGENT_RESTART_SECTIONS || TableHit(AGENT_RESTART_OPTION_KEYS, cur, prev, s),
               TableHit(BOOTSTRAP_RESTART_OPTION_KEYS, cur, prev, s))
  }

  ghost function Or(a: NeedChange, b: NeedChange): NeedChange {
    NeedChange(a.ncp || b.ncp, a.agent || b.agent, a.bootstrap || b.bootstrap)
  }

  /** The flags raised by the first `n` differing sections. */
  ghost function FlagsUpTo(secs: seq<Section>, n: nat, cur: File, prev: File): NeedChange
    requires n <= |secs|
  {
    if n == 0 then NOTHING else Or(FlagsUpTo(secs, n - 1, cur, prev), FlagsOf(cur, prev, secs[n - 1]))
  }

  lemma {:induction false} FlagsUpToExactly(secs: seq<Section>, n: nat, cur: File, prev: File)
    requires n <= |secs|
    ensures FlagsUpTo(secs, n, cur, prev).ncp <==> exists j :: 0 <= j < n && FlagsOf(cur, prev, secs[j]).ncp
    ensures FlagsUpTo(secs, n, cur, prev).agent <==> exists j :: 0 <= j < n && FlagsOf(cur, prev, secs[j]).agent
    ensures FlagsUpTo(secs, n, cur, prev).bootstrap <==> exists j :: 0 <= j < n && FlagsOf(cur, prev, secs[j]).bootstrap
  {
    if n > 0 {
      FlagsUpToExactly(secs, n - 1, cur, prev);
    }
  }

  /** Stopping early loses nothing: flags are never lowered. */
  lemma {:induction false} FlagsUpToMonotone(secs: seq<Section>, m: nat, n: nat, cur: File, prev: File)
    requires m <= n <= |secs|
    requires FlagsUpTo(secs, m, cur, prev) == EVERYTHING
    ensures FlagsUpTo(secs, n, cur, prev) == EVERYTHING
  {
    if m < n {
      FlagsUpToMonotone(secs, m, n - 1, cur, prev);
    }
  }

  lemma AllFlags(secs: seq<Section>, cur: File, prev: File)
    requires forall s :: s in secs <==> SectionDiffers(cur, prev, s)
    ensures FlagsUpTo(secs, |secs|, cur, prev) == FlagsFor(cur, prev)
  {
    FlagsUpToExactly(secs, |secs|, cur, prev);
    var all := FlagsUpTo(secs, |secs|, cur, prev);
    assert all.ncp == NcpNeeded(cur, prev);
    if AgentNeeded(cur, prev) {
      var s :| s in secs && FlagsOf(cur, prev, s).agent;
    }
    assert all.agent == AgentNeeded(cur, prev);
    if BootstrapNeeded(cur, prev) {
      var s :| s in secs && FlagsOf(cur, prev, s).bootstrap;
    }
  }

  /** Raises the flags of one section. */
  method RaiseFlags(before: NeedChange, sec: Section, curCfg: File, prevCfg: File, ghost cur: File, ghost prev: File)
    returns (need: NeedChange)
    requires curCfg == TouchBoth(cur) && prevCfg == TouchBoth(prev)
    requires SectionDiffers(cur, prev, sec)
    ensures need == Or(before, FlagsOf(cur, prev, sec))
  {
    HitExactly(AGENT_RESTART_OPTION_KEYS, cur, prev, sec);
    HitExactly(BOOTSTRAP_RESTART_OPTION_KEYS, cur, prev, sec);
    need := before;
    if !need.ncp && sec in NCP_SECTIONS {
      need := need.(ncp := true);
    }
    if !need.agent && sec in AGENT_RESTART_SECTIONS {
      need := need.(agent := true);
    }
    if !need.agent {
      var hit := CheckOptionsChange(AGENT_RESTART_OPTION_KEYS, sec, prevCfg, curCfg);
      need := need.(agent := hit);
    }
    if !need.bootstrap {
      var hit := CheckOptionsChange(BOOTSTRAP_RESTART_OPTION_KEYS, sec, prevCfg, curCfg);
      need := need.(bootstrap := hit);
    }
  }

  /** Turns differing sections into flags, stopping once all three are raised. */
  method SectionFlags(diffSecs: seq<Section>, curCfg: File, prevCfg: File, ghost cur: File, ghost prev: File)
    returns (need: NeedChange)
    requires curCfg == TouchBoth(cur) && prevCfg == TouchBoth(prev)
    requires forall s :: s in diffSecs <==> SectionDiffers(cur, prev, s)
    ensures need == FlagsFor(cur, prev)
  {
    need := NOTHING;
    AllFlags(diffSecs, cur, prev);
    for i := 0 to |diffSecs|
      invariant need == FlagsUpTo(diffSecs, i, cur, prev)
    {
      need := RaiseFlags(need, diffSecs[i], curCfg, prevCfg, cur, prev);
      if need.ncp && need.agent && need.bootstrap {
        FlagsUpToMonotone(diffSecs, i + 1, |diffSecs|, cur, prev);
        return;
      }
    }
  }

  lemma HitExactly(options: map<Section, seq<Key>>, cur: File, prev: File, sec: Section)
    requires SectionDiffers(cur, prev, sec)
    ensures TableHit(options, cur, prev, sec) <==>
      && sec in options
      && (TouchBoth(prev).HasSection(sec) != TouchBoth(cur).HasSection(sec) ||
          exists k :: k in options[sec] && TouchBoth(prev).Lookup(sec, k) != TouchBoth(cur).Lookup(sec, k))
  {
    TouchedLookup(cur, sec);
    TouchedLookup(prev, sec);
    if sec in options {
      forall k | k in options[sec]
        ensures OptionDiffers(cur, prev, sec, k) <==> TouchBoth(prev).Lookup(sec, k) != TouchBoth(cur).Lookup(sec, k)
      {
      }
    }
  }

  method NeedApplyChange(curr: Document, prev: Option<Document>) returns (v: Verdict)
    ensures v == Decision(curr, prev)
    ensures prev.None? ==> v == Flags(NeedChange(true, true, true))
    ensures prev == Some(curr) ==> v == Flags(NeedChange(false, false, false))
  {
    if prev.None? {
      return Flags(EVERYTHING);
    }
    if curr == prev.value {
      return Flags(NOTHING);
    }
    if curr.Malformed? || prev.value.Malformed? {
      return LoadFailed;
    }
    var curCfg := new Config(curr.file);
    var prevCfg := new Config(prev.value.file);
    var changed := ImmutableFieldChanged(curCfg, prevCfg);
    if changed {
      return ImmutableChanged;
    }
    var diffSecs := DiffSections(curCfg.file, prevCfg.file);
    forall s ensures s in diffSecs <==> SectionDiffers(curr.file, prev.value.file, s) {
      TouchedDiffers(curr.file, prev.value.file, s);
    }
    var need := SectionFlags(diffSecs, curCfg.file, prevCfg.file, curr.file, prev.value.file);
    return Flags(need);
  }
}
