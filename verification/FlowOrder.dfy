/**
 The order in which a settings flow advances: in every persisted status the Applied groups are a
 prefix of the priority-sorted flow, and at most the next group has a further entry.
 */
module FlowOrder {
  import opened Options
  import opened BmcReset
  import opened SettingsFlow

  predicate SameItem(a: FlowItem, b: FlowItem) {
    a.name == b.name && a.priority == b.priority
  }

  predicate Distinct(items: seq<FlowItem>) {
    forall i, j :: 0 <= i < j < |items| ==> !SameItem(items[i], items[j])
  }

  lemma {:induction false} InsertDistinct(item: FlowItem, sorted: seq<FlowItem>)
    requires Distinct(sorted) && forall x :: x in sorted ==> !SameItem(item, x)
    ensures Distinct(Insert(item, sorted))
  {
    if sorted != [] && item.priority > sorted[0].priority {
      InsertDistinct(item, sorted[1..]);
      InsertPermutes(item, sorted[1..]);
      var rest := Insert(item, sorted[1..]);
      forall i | 0 <= i < |rest|
        ensures !SameItem(sorted[0], rest[i])
      {
        assert rest[i] in multiset(rest);
      }
    }
  }

  lemma {:induction false} SortedDistinct(flow: seq<FlowItem>)
    requires Distinct(flow)
    ensures Distinct(SortedSettingsFlowGroups(flow))
  {
    if flow != [] {
      SortedDistinct(flow[1..]);
      SortedGroups(flow[1..], 0);
      var rest := SortedSettingsFlowGroups(flow[1..]);
      forall x | x in rest
        ensures !SameItem(flow[0], x)
      {
        assert x in multiset(flow[1..]);
      }
      InsertDistinct(flow[0], rest);
    }
  }

  /** The entries are those of the first groups in order, all but the last one Applied. */
  predicate InOrder(fs: seq<FlowStatus>, sorted: seq<FlowItem>) {
    && |fs| <= |sorted|
    && (forall i :: 0 <= i < |fs| ==> SameGroup(fs[i], sorted[i]))
    && (forall i :: 0 <= i < |fs| - 1 ==> fs[i].state == Applied)
  }

  function AppliedCount(fs: seq<FlowStatus>): nat {
    if fs == [] || fs[|fs| - 1].state == Applied then |fs| else |fs| - 1
  }

  lemma EntryInOrder(fs: seq<FlowStatus>, sorted: seq<FlowItem>, i: nat)
    requires InOrder(fs, sorted) && Distinct(sorted) && i < |sorted|
    ensures EntryOf(fs, sorted[i]) == if i < |fs| then i else |fs|
    ensures IsApplied(fs, sorted[i]) <==> i < AppliedCount(fs)
  {
    var e := EntryOf(fs, sorted[i]);
    if e < |fs| {
      assert SameItem(sorted[e], sorted[i]);
    }
  }

  lemma UpsertInOrder(fs: seq<FlowStatus>, sorted: seq<FlowItem>, i: nat, state: GroupState)
    requires InOrder(fs, sorted) && Distinct(sorted) && i < |sorted| && i == AppliedCount(fs)
    ensures var fs' := Upsert(fs, sorted[i], state);
            && InOrder(fs', sorted) && |fs'| == i + 1 && fs'[i].state == state
            && AppliedCount(fs') == if state == Applied then i + 1 else i
  {
    EntryInOrder(fs, sorted, i);
  }

  /** The first group from `i` on that the BMC does not match, or the number of groups. */
  function FirstOpen(sorted: seq<FlowItem>, attrs: Attrs, i: nat): (m: nat)
    requires i <= |sorted|
    ensures i <= m <= |sorted|
    ensures m < |sorted| ==> Diff(sorted[m].settings, attrs) != map[]
    ensures forall j :: i <= j < m ==> Diff(sorted[j].settings, attrs) == map[]
    decreases |sorted| - i
  {
    if i == |sorted| || Diff(sorted[i].settings, attrs) != map[] then i else FirstOpen(sorted, attrs, i + 1)
  }

  /** What the pass does when the states are in order. */
  ghost predicate Advances(fs: seq<FlowStatus>, sorted: seq<FlowItem>, attrs: Attrs, p: Pass)
    requires AppliedCount(fs) <= |sorted|
  {
    var m := FirstOpen(sorted, attrs, AppliedCount(fs));
    && InOrder(p.fs, sorted) && AppliedCount(p.fs) == m
    && (p.changed <==> m > AppliedCount(fs))
    && p.open == if m < |sorted| then Some(Diff(sorted[m].settings, attrs)) else None
  }

  lemma {:induction false} PassAdvances(fs: seq<FlowStatus>, sorted: seq<FlowItem>, i: nat, attrs: Attrs, verifyOnly: bool)
    requires InOrder(fs, sorted) && Distinct(sorted) && i <= AppliedCount(fs)
    ensures Advances(fs, sorted, attrs, ForwardPass(fs, sorted[i..], attrs, verifyOnly))
    decreases |sorted| - i
  {
    if i < |sorted| {
      assert sorted[i..][0] == sorted[i] && sorted[i..][1..] == sorted[i + 1..];
      EntryInOrder(fs, sorted, i);
      if i < AppliedCount(fs) {
        PassAdvances(fs, sorted, i + 1, attrs, verifyOnly);
      } else if Diff(sorted[i].settings, attrs) == map[] {
        UpsertInOrder(fs, sorted, i, Applied);
        PassAdvances(Upsert(fs, sorted[i], Applied), sorted, i + 1, attrs, verifyOnly);
      } else {
        OpenedInOrder(fs, sorted, i, verifyOnly);
      }
    }
  }

  lemma OpenedInOrder(fs: seq<FlowStatus>, sorted: seq<FlowItem>, i: nat, verifyOnly: bool)
    requires InOrder(fs, sorted) && Distinct(sorted) && i < |sorted| && i == AppliedCount(fs)
    ensures InOrder(Opened(fs, sorted[i], verifyOnly), sorted) && AppliedCount(Opened(fs, sorted[i], verifyOnly)) == i
  {
    EntryInOrder(fs, sorted, i);
    var seen := if EntryOf(fs, sorted[i]) == |fs| then Upsert(fs, sorted[i], Pending) else fs;
    if seen != fs {
      UpsertInOrder(fs, sorted, i, Pending);
    }
    UpsertInOrder(seen, sorted, i, InProgress);
  }

  lemma {:induction false} MarkAppliedInOrder(fs: seq<FlowStatus>, sorted: seq<FlowItem>, i: nat)
    requires InOrder(fs, sorted) && Distinct(sorted) && i <= AppliedCount(fs)
    ensures InOrder(MarkApplied(fs, sorted[i..]), sorted) && AppliedCount(MarkApplied(fs, sorted[i..])) == |sorted|
    decreases |sorted| - i
  {
    if i < |sorted| {
      assert sorted[i..][0] == sorted[i] && sorted[i..][1..] == sorted[i + 1..];
      EntryInOrder(fs, sorted, i);
      if i < AppliedCount(fs) {
        assert Upsert(fs, sorted[i], Applied) == fs;
      } else {
        UpsertInOrder(fs, sorted, i, Applied);
      }
      MarkAppliedInOrder(Upsert(fs, sorted[i], Applied), sorted, i + 1);
    }
  }

  lemma GroupDiffInOrder(fs: seq<FlowStatus>, flow: seq<FlowItem>, attrs: Attrs, mergedDiff: Attrs, verifyOnly: bool)
    requires Distinct(flow) && InOrder(fs, SortedSettingsFlowGroups(flow))
    ensures InOrder(GroupDiffOf(fs, flow, attrs, mergedDiff, verifyOnly).fs, SortedSettingsFlowGroups(flow))
  {
    var sorted := SortedSettingsFlowGroups(flow);
    SortedDistinct(flow);
    assert sorted[0..] == sorted;
    PassAdvances(fs, sorted, 0, attrs, verifyOnly);
    MarkAppliedInOrder(ForwardPass(fs, sorted, attrs, verifyOnly).fs, sorted, 0);
  }

  lemma {:induction false} FailKeepsOrder(fs: seq<FlowStatus>, i: nat)
    ensures |FailInProgress(fs)| == |fs|
    ensures i < |fs| ==> FailInProgress(fs)[i].name == fs[i].name && FailInProgress(fs)[i].priority == fs[i].priority
    ensures i < |fs| && fs[i].state == Applied ==> FailInProgress(fs)[i].state == Applied
  {
    if fs != [] {
      FailKeepsOrder(fs[1..], if i > 0 then i - 1 else 0);
    }
  }

  lemma IssueKeepsOrder(spec: Spec, w: World, mergedDiff: Attrs, env: Env)
    requires Distinct(spec.flow) && InOrder(w.st.fs, SortedSettingsFlowGroups(spec.flow))
    ensures InOrder(IssuePhase(spec, w, mergedDiff, env).w.st.fs, SortedSettingsFlowGroups(spec.flow))
  {
    GroupDiffInOrder(if ClearFires(spec, w.st) then [] else w.st.fs, spec.flow, w.attrs, mergedDiff, false);
  }

  lemma UpdateKeepsOrder(spec: Spec, w: World, mergedDiff: Attrs, env: Env)
    requires Distinct(spec.flow) && InOrder(w.st.fs, SortedSettingsFlowGroups(spec.flow))
    ensures InOrder(UpdateOutcome(spec, w, mergedDiff, env).w.st.fs, SortedSettingsFlowGroups(spec.flow))
  {
    IssueKeepsOrder(spec, w, mergedDiff, env);
    GroupDiffInOrder(w.st.fs, spec.flow, w.attrs, mergedDiff, true);
  }

  lemma InProgressKeepsOrder(spec: Spec, w: World, env: Env)
    requires Distinct(spec.flow) && InOrder(w.st.fs, SortedSettingsFlowGroups(spec.flow))
    ensures InOrder(InProgressStep(spec, w, env).w.st.fs, SortedSettingsFlowGroups(spec.flow))
  {
    var sorted := SortedSettingsFlowGroups(spec.flow);
    SortedDistinct(spec.flow);
    assert sorted[0..] == sorted;
    MarkAppliedInOrder(w.st.fs, sorted, 0);
    var call := ResetCall(w.st.initialReset, false, env.recentReset, w.op, env.persisted);
    var w' := w.(st := w.st.(initialReset := call.cond), op := call.op);
    UpdateKeepsOrder(spec, w', Diff(Merged(spec.flow), w.attrs), env);
  }

  /** Every reconcile, in every phase and however it ends, keeps the flow state in order. */
  lemma ReconcileKeepsOrder(spec: Spec, w: World, env: Env)
    requires Distinct(spec.flow) && InOrder(w.st.fs, SortedSettingsFlowGroups(spec.flow))
    ensures InOrder(Reconcile(spec, w, env).w.st.fs, SortedSettingsFlowGroups(spec.flow))
  {
    match w.st.phase
    case Progressing => InProgressKeepsOrder(spec, w, env);
    case Broken =>
      forall i | 0 <= i < |w.st.fs| {
        FailKeepsOrder(w.st.fs, i);
      }
    case _ =>
  }

  /** The steps between reconciles leave the status alone but may change the BMC in any way. */
  ghost predicate Follows(spec: Spec, w: World, w': World) {
    w'.st == w.st || exists env :: w'.st == Reconcile(spec, w, env).w.st
  }

  /** The order invariant over every run at one generation, from a status without flow progress. */
  lemma {:induction false} FlowStateIsAlwaysInOrder(spec: Spec, run: seq<World>, i: nat)
    requires Distinct(spec.flow) && i < |run| && run[0].st.fs == []
    requires forall j :: 0 <= j < |run| - 1 ==> Follows(spec, run[j], run[j + 1])
    ensures InOrder(run[i].st.fs, SortedSettingsFlowGroups(spec.flow))
  {
    if i > 0 {
      FlowStateIsAlwaysInOrder(spec, run, i - 1);
      assert Follows(spec, run[i - 1], run[i - 1 + 1]);
      if run[i].st != run[i - 1].st {
        var env :| run[i].st == Reconcile(spec, run[i - 1], env).w.st;
        ReconcileKeepsOrder(spec, run[i - 1], env);
      }
    }
  }
}
