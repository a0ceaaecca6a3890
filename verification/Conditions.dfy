/** Lists of status conditions keyed by type. */
module Conditions {
  import opened Common

  datatype ConditionType = Degraded | Progressing | Available | Upgradeable | OtherType(name: string)
  datatype ConditionStatus = IsTrue | IsFalse | IsUnknown

  /** `since` is LastTransitionTime. */
  datatype Condition = Condition(
    ctype: ConditionType,
    status: ConditionStatus,
    reason: string,
    message: string,
    since: int)

  type Conditions = seq<Condition>

  /** Index of the first condition of a type, or the length of the list. */
  function IndexOf(cs: Conditions, t: ConditionType): (i: nat)
    ensures i <= |cs|
    ensures i < |cs| ==> cs[i].ctype == t
    ensures forall j :: 0 <= j < i ==> cs[j].ctype != t
  {
    if cs == [] || cs[0].ctype == t then 0 else 1 + IndexOf(cs[1..], t)
  }

  function Lookup(cs: Conditions, t: ConditionType): (c: Option<Condition>)
    ensures c.Some? ==> c.value.ctype == t
  {
    var i := IndexOf(cs, t);
    if i < |cs| then Some(cs[i]) else None
  }

  ghost predicate UniqueTypes(cs: Conditions) {
    forall i, j :: 0 <= i < j < |cs| ==> cs[i].ctype != cs[j].ctype
  }

  /** A new condition takes over status, reason and message; the transition time moves
      only on insertion or when the status changes. */
  function Merged(old_: Option<Condition>, n: Condition, now: int): Condition {
    n.(since := if old_.None? || old_.value.status != n.status then now else old_.value.since)
  }

  function SetCondition(cs: Conditions, n: Condition, now: int): Conditions {
    var i := IndexOf(cs, n.ctype);
    if i == |cs| then cs + [Merged(None, n, now)] else cs[i := Merged(Some(cs[i]), n, now)]
  }

  predicate Differs(old_: Option<Condition>, n: Condition) {
    old_.None? || old_.value.status != n.status || old_.value.reason != n.reason || old_.value.message != n.message
  }

  lemma IndexUnique(cs: Conditions, t: ConditionType, i: nat)
    requires i < |cs| && cs[i].ctype == t && forall j :: 0 <= j < i ==> cs[j].ctype != t
    ensures IndexOf(cs, t) == i
  {
  }

  lemma SetLookup(cs: Conditions, n: Condition, now: int, t: ConditionType)
    ensures Lookup(SetCondition(cs, n, now), t) ==
            if t == n.ctype then Some(Merged(Lookup(cs, t), n, now)) else Lookup(cs, t)
  {
    var i := IndexOf(cs, n.ctype);
    if i == |cs| {
      LookupAppended(cs, Merged(None, n, now), t);
    } else {
      LookupUpdated(cs, i, Merged(Some(cs[i]), n, now), t);
    }
  }

  /** The type's condition afterwards: the new status, reason and message, and the time it took on this status. */
  lemma SetTakesOver(cs: Conditions, n: Condition, now: int)
    ensures var was, c := Lookup(cs, n.ctype), Lookup(SetCondition(cs, n, now), n.ctype);
            && c.Some? && (c.value.status, c.value.reason, c.value.message) == (n.status, n.reason, n.message)
            && c.value.since == if was.Some? && was.value.status == n.status then was.value.since else now
  {
    SetLookup(cs, n, now, n.ctype);
  }

  lemma LookupAppended(cs: Conditions, c: Condition, t: ConditionType)
    requires IndexOf(cs, c.ctype) == |cs|
    ensures Lookup(cs + [c], t) == if t == c.ctype then Some(c) else Lookup(cs, t)
  {
    IndexAppended(cs, c, t);
  }

  lemma IndexAppended(cs: Conditions, c: Condition, t: ConditionType)
    ensures IndexOf(cs + [c], t) == if IndexOf(cs, t) < |cs| || t == c.ctype then IndexOf(cs, t) else |cs| + 1
  {
    var i := IndexOf(cs, t);
    if i < |cs| || t == c.ctype {
      IndexUnique(cs + [c], t, i);
    }
  }

  lemma LookupUpdated(cs: Conditions, i: nat, c: Condition, t: ConditionType)
    requires i < |cs| && IndexOf(cs, c.ctype) == i
    ensures Lookup(cs[i := c], t) == if t == c.ctype then Some(c) else Lookup(cs, t)
  {
    var r, k := cs[i := c], IndexOf(cs, t);
    assert forall j :: 0 <= j < |cs| ==> r[j].ctype == cs[j].ctype;
    if k < |cs| {
      IndexUnique(r, t, k);
    }
  }

  /** The types of the list: old ones keep their places, a new one goes to the end. */
  lemma SetShape(cs: Conditions, n: Condition, now: int)
    ensures var r := SetCondition(cs, n, now);
            && |cs| <= |r|
            && (forall i :: 0 <= i < |cs| ==> r[i].ctype == cs[i].ctype && (cs[i].ctype != n.ctype ==> r[i] == cs[i]))
            && (UniqueTypes(cs) ==> UniqueTypes(r))
            && (r == cs <==> !Differs(Lookup(cs, n.ctype), n))
  {
  }

  /** The list after merging the new conditions one by one. */
  function Combine(cs: Conditions, news: Conditions, now: int): Conditions {
    if news == [] then cs else SetCondition(Combine(cs, news[..|news| - 1], now), news[|news| - 1], now)
  }

  // ---------------------------------------------------------------- the keyed merge

  /** The new condition for a type, if there is one. */
  ghost predicate Named(news: Conditions, t: ConditionType) {
    exists i :: 0 <= i < |news| && news[i].ctype == t
  }

  lemma {:induction false} CombineOther(cs: Conditions, news: Conditions, now: int, t: ConditionType)
    requires !Named(news, t)
    ensures Lookup(Combine(cs, news, now), t) == Lookup(cs, t)
  {
    if news != [] {
      var front, last := news[..|news| - 1], news[|news| - 1];
      assert forall j :: 0 <= j < |front| ==> front[j] == news[j];
      CombineOther(cs, front, now, t);
      SetLookup(Combine(cs, front, now), last, now, t);
    }
  }

  lemma {:induction false} CombineNamed(cs: Conditions, news: Conditions, now: int, i: nat)
    requires UniqueTypes(news) && i < |news|
    ensures Lookup(Combine(cs, news, now), news[i].ctype) == Some(Merged(Lookup(cs, news[i].ctype), news[i], now))
  {
    var front, last := news[..|news| - 1], news[|news| - 1];
    SetLookup(Combine(cs, front, now), last, now, news[i].ctype);
    if i < |front| {
      CombineNamed(cs, front, now, i);
    } else {
      CombineOther(cs, front, now, last.ctype);
    }
  }

  /** For distinct new types: named types take the new condition, all others stay. */
  lemma CombineLookup(cs: Conditions, news: Conditions, now: int, t: ConditionType)
    requires UniqueTypes(news)
    ensures !Named(news, t) ==> Lookup(Combine(cs, news, now), t) == Lookup(cs, t)
    ensures forall i :: 0 <= i < |news| && news[i].ctype == t ==>
              Lookup(Combine(cs, news, now), t) == Some(Merged(Lookup(cs, t), news[i], now))
  {
    if !Named(news, t) {
      CombineOther(cs, news, now, t);
    }
    forall i | 0 <= i < |news| && news[i].ctype == t
      ensures Lookup(Combine(cs, news, now), t) == Some(Merged(Lookup(cs, t), news[i], now))
    {
      CombineNamed(cs, news, now, i);
    }
  }

  /** The same with the new condition looked up. */
  lemma CombineAt(cs: Conditions, news: Conditions, now: int, t: ConditionType)
    requires UniqueTypes(news)
    ensures Lookup(Combine(cs, news, now), t) ==
            if Lookup(news, t).Some? then Some(Merged(Lookup(cs, t), Lookup(news, t).value, now)) else Lookup(cs, t)
  {
    CombineLookup(cs, news, now, t);
  }

  /** Order and uniqueness survive; untouched entries are the same in the same places. */
  lemma {:induction false} CombineShape(cs: Conditions, news: Conditions, now: int)
    ensures var r := Combine(cs, news, now);
            && |cs| <= |r|
            && (forall i :: 0 <= i < |cs| ==>
                  r[i].ctype == cs[i].ctype && (!Named(news, cs[i].ctype) ==> r[i] == cs[i]))
            && (UniqueTypes(cs) ==> UniqueTypes(r))
  {
    if news != [] {
      var front, last := news[..|news| - 1], news[|news| - 1];
      CombineShape(cs, front, now);
      SetShape(Combine(cs, front, now), last, now);
      forall i | 0 <= i < |cs| && !Named(news, cs[i].ctype)
        ensures Combine(cs, news, now)[i] == cs[i]
      {
        assert forall j :: 0 <= j < |front| ==> front[j] == news[j];
        assert news[|news| - 1].ctype != cs[i].ctype;
      }
    }
  }

  /** The merge changes the list exactly when some new condition differs from the old one. */
  lemma {:induction false} CombineChanges(cs: Conditions, news: Conditions, now: int)
    requires UniqueTypes(news)
    ensures Combine(cs, news, now) == cs <==>
            forall i :: 0 <= i < |news| ==> !Differs(Lookup(cs, news[i].ctype), news[i])
  {
    if news != [] {
      var front, last := news[..|news| - 1], news[|news| - 1];
      CombineChanges(cs, front, now);
      var mid := Combine(cs, front, now);
      SetShape(mid, last, now);
      CombineLookup(cs, front, now, last.ctype);
      assert !Named(front, last.ctype);
      if Combine(cs, news, now) == cs {
        forall i | 0 <= i < |news| ensures !Differs(Lookup(cs, news[i].ctype), news[i]) {
          CombineLookup(cs, news, now, news[i].ctype);
        }
      }
      if forall i :: 0 <= i < |news| ==> !Differs(Lookup(cs, news[i].ctype), news[i]) {
        assert forall i :: 0 <= i < |front| ==> front[i] == news[i];
        assert news[|news| - 1] == last;
      }
    }
  }

  lemma CombineStep(cs: Conditions, news: Conditions, now: int, i: nat)
    requires i < |news|
    ensures Combine(cs, news[..i + 1], now) == SetCondition(Combine(cs, news[..i], now), news[i], now)
    ensures UniqueTypes(news) ==> Lookup(Combine(cs, news[..i], now), news[i].ctype) == Lookup(cs, news[i].ctype)
  {
    assert news[..i + 1][..i] == news[..i];
    if UniqueTypes(news) {
      CombineOther(cs, news[..i], now, news[i].ctype);
    }
  }

  /** Merging the same conditions again, at any later time, changes nothing. */
  lemma CombineIdempotent(cs: Conditions, news: Conditions, now: int, later: int)
    requires UniqueTypes(news)
    ensures Combine(Combine(cs, news, now), news, later) == Combine(cs, news, now)
  {
    var r := Combine(cs, news, now);
    forall i | 0 <= i < |news| ensures !Differs(Lookup(r, news[i].ctype), news[i]) {
      CombineLookup(cs, news, now, news[i].ctype);
    }
    CombineChanges(r, news, later);
  }

  // ---------------------------------------------------------------- repeated types

  /** Some step of the merge finds a difference; this is the changed flag. */
  ghost predicate Reports(cs: Conditions, news: Conditions, now: int) {
    exists i :: 0 <= i < |news| && DiffersAt(cs, news, now, i)
  }

  ghost predicate DiffersAt(cs: Conditions, news: Conditions, now: int, i: nat)
    requires i < |news|
  {
    Differs(Lookup(Combine(cs, news[..i], now), news[i].ctype), news[i])
  }

  /** Entries of one type all have the same status. */
  ghost predicate StatusesAgree(news: Conditions) {
    forall i, j :: 0 <= i < j < |news| && news[i].ctype == news[j].ctype ==> news[i].status == news[j].status
  }

  /** Entries of one type all have the same status, reason and message. */
  ghost predicate EntriesAgree(news: Conditions) {
    forall i, j :: 0 <= i < j < |news| && news[i].ctype == news[j].ctype ==> !Differs(Some(news[i]), news[j])
  }

  /** Nothing is reported exactly when no new condition differs from the list as it was; then the list stays. */
  lemma {:induction false} ReportsExactly(cs: Conditions, news: Conditions, now: int)
    ensures Reports(cs, news, now) <==> AnyDiffers(cs, news)
    ensures !Reports(cs, news, now) ==> Combine(cs, news, now) == cs
  {
    if news != [] {
      var front, last := news[..|news| - 1], news[|news| - 1];
      ReportsExactly(cs, front, now);
      ReportsStep(cs, front, last, now);
      AnyDiffersStep(cs, front, last);
      assert front + [last] == news;
      SetShape(Combine(cs, front, now), last, now);
    }
  }

  ghost predicate AnyDiffers(cs: Conditions, news: Conditions) {
    exists i :: 0 <= i < |news| && Differs(Lookup(cs, news[i].ctype), news[i])
  }

  lemma ReportsStep(cs: Conditions, front: Conditions, last: Condition, now: int)
    ensures Reports(cs, front + [last], now) <==>
            Reports(cs, front, now) || Differs(Lookup(Combine(cs, front, now), last.ctype), last)
  {
    var news := front + [last];
    forall i | 0 <= i < |front| ensures DiffersAt(cs, front, now, i) == DiffersAt(cs, news, now, i) {
      assert front[..i] == news[..i];
    }
    assert news[..|front|] == front;
    assert DiffersAt(cs, news, now, |front|) <==> Differs(Lookup(Combine(cs, front, now), last.ctype), last);
  }

  lemma AnyDiffersStep(cs: Conditions, front: Conditions, last: Condition)
    ensures AnyDiffers(cs, front + [last]) <==> AnyDiffers(cs, front) || Differs(Lookup(cs, last.ctype), last)
  {
    var news := front + [last];
    assert news[|front|] == last;
    if i :| 0 <= i < |front| && Differs(Lookup(cs, front[i].ctype), front[i]) {
      assert news[i] == front[i];
    }
  }

  /** The last entry of a type from `i` on, whose status, reason and message the merged list shows. */
  lemma {:induction false} LastEntryWins(cs: Conditions, news: Conditions, now: int, i: nat) returns (k: nat)
    requires i < |news|
    ensures i <= k < |news| && news[k].ctype == news[i].ctype
    ensures !Differs(Lookup(Combine(cs, news, now), news[i].ctype), news[k])
  {
    var front, last := news[..|news| - 1], news[|news| - 1];
    SetLookup(Combine(cs, front, now), last, now, news[i].ctype);
    if last.ctype == news[i].ctype {
      k := |news| - 1;
    } else {
      k := LastEntryWins(cs, front, now, i);
    }
  }

  /** A second merge of the same conditions reports a change exactly when two entries of one type differ. */
  lemma SecondMergeReports(cs: Conditions, news: Conditions, now: int, later: int)
    ensures Reports(Combine(cs, news, now), news, later) <==> !EntriesAgree(news)
  {
    var r := Combine(cs, news, now);
    ReportsExactly(r, news, later);
    if EntriesAgree(news) {
      forall i | 0 <= i < |news| ensures !Differs(Lookup(r, news[i].ctype), news[i]) {
        var k := LastEntryWins(cs, news, now, i);
      }
    } else {
      var i, j :| 0 <= i < j < |news| && news[i].ctype == news[j].ctype && Differs(Some(news[i]), news[j]);
      assert Differs(Lookup(r, news[i].ctype), news[i]) || Differs(Lookup(r, news[j].ctype), news[j]);
    }
  }

  /** Entries that do not change the status keep the transition time. */
  lemma {:induction false} SinceStays(cs: Conditions, news: Conditions, now: int, t: ConditionType)
    requires Lookup(cs, t).Some?
    requires forall i :: 0 <= i < |news| && news[i].ctype == t ==> news[i].status == Lookup(cs, t).value.status
    ensures var c := Lookup(Combine(cs, news, now), t);
            c.Some? && c.value.status == Lookup(cs, t).value.status && c.value.since == Lookup(cs, t).value.since
  {
    if news != [] {
      var front := news[..|news| - 1];
      assert forall i :: 0 <= i < |front| ==> front[i] == news[i];
      SinceStays(cs, front, now, t);
      SetLookup(Combine(cs, front, now), news[|news| - 1], now, t);
    }
  }

  /** Two entries of one type with different statuses set the transition time to the time of the merge. */
  lemma {:induction false} SinceMoves(cs: Conditions, news: Conditions, now: int, i: nat, j: nat)
    requires i < j < |news| && news[i].ctype == news[j].ctype && news[i].status != news[j].status
    ensures var c := Lookup(Combine(cs, news, now), news[i].ctype); c.Some? && c.value.since == now
  {
    var front, last := news[..|news| - 1], news[|news| - 1];
    SetLookup(Combine(cs, front, now), last, now, news[i].ctype);
    if j < |front| {
      SinceMoves(cs, front, now, i, j);
    } else {
      var k := LastEntryWins(cs, front, now, i);
      if front[k].status == last.status {
        SinceMoves(cs, front, now, i, k);
      }
    }
  }

  /** Lists of the same types that look alike and agree behind the first entry of each type are equal. */
  lemma SameByLookup(a: Conditions, b: Conditions)
    requires |a| == |b| && forall i :: 0 <= i < |a| ==> a[i].ctype == b[i].ctype
    requires forall i :: 0 <= i < |a| && IndexOf(a, a[i].ctype) != i ==> a[i] == b[i]
    requires forall t :: Lookup(a, t) == Lookup(b, t)
    ensures a == b
  {
    forall i | 0 <= i < |a| ensures a[i] == b[i] {
      if IndexOf(a, a[i].ctype) == i {
        IndexUnique(b, a[i].ctype, i);
        assert Lookup(a, a[i].ctype) == Lookup(b, a[i].ctype);
      }
    }
  }

  /** A merge keeps the types of the list and all but the first entry of each type. */
  lemma {:induction false} CombineKeepsRest(cs: Conditions, news: Conditions, now: int, i: nat)
    requires i < |cs|
    ensures var r := Combine(cs, news, now);
            i < |r| && r[i].ctype == cs[i].ctype && (IndexOf(cs, cs[i].ctype) != i ==> r[i] == cs[i])
  {
    if news != [] {
      var front, last := news[..|news| - 1], news[|news| - 1];
      CombineKeepsRest(cs, front, now, i);
      SetShape(Combine(cs, front, now), last, now);
      if IndexOf(cs, cs[i].ctype) != i {
        var first := IndexOf(cs, cs[i].ctype);
        CombineKeepsRest(cs, front, now, first);
      }
    }
  }

  /** No type is added by merging types that are there. */
  lemma {:induction false} CombineKeepsLength(cs: Conditions, news: Conditions, now: int)
    requires forall i :: 0 <= i < |news| ==> Lookup(cs, news[i].ctype).Some?
    ensures |Combine(cs, news, now)| == |cs|
  {
    if news != [] {
      var front, last := news[..|news| - 1], news[|news| - 1];
      assert forall i :: 0 <= i < |front| ==> front[i] == news[i];
      CombineKeepsLength(cs, front, now);
      var first := IndexOf(cs, last.ctype);
      assert Lookup(cs, last.ctype).Some?;
      CombineKeepsRest(cs, front, now, first);
    }
  }

  /** A second merge of the same conditions at a later time leaves the list as it is exactly when entries of one type
      agree on the status: only the transition time can move. */
  lemma SecondMergeExactly(cs: Conditions, news: Conditions, now: int, later: int)
    ensures Combine(Combine(cs, news, now), news, later) == Combine(cs, news, now) <==>
            later == now || StatusesAgree(news)
  {
    var r := Combine(cs, news, now);
    var again := Combine(r, news, later);
    if later == now || StatusesAgree(news) {
      forall i | 0 <= i < |news| ensures Lookup(r, news[i].ctype).Some? {
        var k := LastEntryWins(cs, news, now, i);
      }
      CombineKeepsLength(r, news, later);
      forall i | 0 <= i < |r|
        ensures again[i].ctype == r[i].ctype && (IndexOf(r, r[i].ctype) != i ==> r[i] == again[i])
      {
        CombineKeepsRest(r, news, later, i);
      }
      forall t ensures Lookup(r, t) == Lookup(again, t) {
        SecondMergeLookup(cs, news, now, later, t);
      }
      SameByLookup(r, again);
    } else {
      var i, j :| 0 <= i < j < |news| && news[i].ctype == news[j].ctype && news[i].status != news[j].status;
      SinceMoves(cs, news, now, i, j);
      SinceMoves(r, news, later, i, j);
    }
  }

  lemma SecondMergeLookup(cs: Conditions, news: Conditions, now: int, later: int, t: ConditionType)
    requires later == now || StatusesAgree(news)
    ensures var r := Combine(cs, news, now); Lookup(Combine(r, news, later), t) == Lookup(r, t)
  {
    var r := Combine(cs, news, now);
    if i :| 0 <= i < |news| && news[i].ctype == t {
      SameEntryWins(cs, r, news, now, later, i);
      if j, k :| 0 <= j < k < |news| && news[j].ctype == news[k].ctype == t && news[j].status != news[k].status {
        SinceMoves(cs, news, now, j, k);
        SinceMoves(r, news, later, j, k);
      } else {
        var k := LastEntryWins(cs, news, now, i);
        SinceStays(r, news, later, t);
      }
    } else {
      CombineOther(r, news, later, t);
    }
  }

  /** Both merges show the same last entry. */
  lemma {:induction false} SameEntryWins(a: Conditions, b: Conditions, news: Conditions, now: int, later: int, i: nat)
    requires i < |news|
    ensures var x, y := Lookup(Combine(a, news, now), news[i].ctype), Lookup(Combine(b, news, later), news[i].ctype);
            x.Some? && y.Some? && x.value.(since := 0) == y.value.(since := 0)
  {
    var front, last := news[..|news| - 1], news[|news| - 1];
    SetLookup(Combine(a, front, now), last, now, news[i].ctype);
    SetLookup(Combine(b, front, later), last, later, news[i].ctype);
    if last.ctype != news[i].ctype {
      SameEntryWins(a, b, front, now, later, i);
    }
  }

  /** Two conditions of one type with different statuses: every later merge changes the list and reports it. */
  lemma RepeatedTypeFlips(t: ConditionType, cs: Conditions, now: int, later: int)
    requires later != now
    ensures var news := [Condition(t, IsTrue, "", "", 0), Condition(t, IsFalse, "", "", 0)];
            var r := Combine(cs, news, now);
            Combine(r, news, later) != r && Reports(r, news, later)
  {
    var news := [Condition(t, IsTrue, "", "", 0), Condition(t, IsFalse, "", "", 0)];
    assert news[0].ctype == news[1].ctype && news[0].status != news[1].status;
    SecondMergeExactly(cs, news, now, later);
    SecondMergeReports(cs, news, now, later);
  }

  // ---------------------------------------------------------------- implementation

  class ConditionList {
    var items: Conditions

    constructor (items: Conditions)
      ensures this.items == items
    {
      this.items := items;
    }

    /** `FindStatusCondition` */
    method Find(t: ConditionType) returns (i: nat)
      ensures i == IndexOf(items, t)
    {
      i := 0;
      while i < |items|
        invariant i <= |items|
        invariant forall j :: 0 <= j < i ==> items[j].ctype != t
      {
        if items[i].ctype == t {
          IndexUnique(items, t, i);
          return;
        }
        i := i + 1;
      }
    }

    /** `SetStatusCondition` */
    method SetStatusCondition(n: Condition, now: int)
      modifies this
      ensures items == SetCondition(old(items), n, now)
    {
      var i := Find(n.ctype);
      if i == |items| {
        items := items + [n.(since := now)];
        return;
      }
      var c := items[i];
      if c.status != n.status {
        c := c.(status := n.status, since := now);
      }
      c := c.(reason := n.reason, message := n.message);
      items := items[i := c];
    }

    /** `CombineConditions` */
    method CombineConditions(news: Conditions, now: int) returns (changed: bool)
      modifies this
      ensures items == Combine(old(items), news, now)
      ensures changed <==> Reports(old(items), news, now)
      ensures items != old(items) ==> changed
      ensures UniqueTypes(news) ==> (changed <==> items != old(items))
    {
      changed := false;
      for i := 0 to |news|
        invariant items == Combine(old(items), news[..i], now)
        invariant changed <==> exists j :: 0 <= j < i && DiffersAt(old(items), news, now, j)
      {
        CombineStep(old(items), news, now, i);
        SetShape(items, news[i], now);
        var k := Find(news[i].ctype);
        assert DiffersAt(old(items), news, now, i) <==> Differs(Lookup(items, news[i].ctype), news[i]);
        if k == |items| {
          SetStatusCondition(news[i], now);
          changed := true;
        } else if items[k].status != news[i].status || items[k].reason != news[i].reason ||
                  items[k].message != news[i].message {
          SetStatusCondition(news[i], now);
          changed := true;
        }
      }
      assert news[..|news|] == news;
      ReportsExactly(old(items), news, now);
      if UniqueTypes(news) {
        CombineChanges(old(items), news, now);
      }
    }
  }
}
