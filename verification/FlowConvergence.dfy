/**
 A settings flow of n groups is applied within n + 1 issue-reset-verify cycles on a BMC that stores
 what it is given, as long as no stale generation clears the flow progress on every cycle.
 */
module FlowConvergence {
  import opened Options
  import opened BmcReset
  import opened SettingsFlow
  import opened FlowOrder

  /** Maintenance is granted, the BMC is on and accepts the settings, nothing is cut off. */
  function Calm(resetRequired: bool): Env {
    Env(true, true, false, true, false, Accepted(resetRequired), true, NoRetry, false)
  }

  /** The BMC's own controller carries out a pending reset. */
  function FinishReset(w: World): World {
    if w.op == GracefulRestart then w.(op := NoOperation) else w
  }

  /** One more reconcile unless the flow is already Applied. */
  function Then(spec: Spec, w: World, resetRequired: bool): World {
    if w.st.phase == Done then w else Reconcile(spec, w, Calm(resetRequired)).w
  }

  /** The reconciles that take an issued group through its reset, when it needs one. */
  function Settle(spec: Spec, w: World, resetRequired: bool): World {
    if resetRequired then Then(spec, FinishReset(Then(spec, w, true)), true) else w
  }

  /** Issue, reset when required, verify. */
  function Cycle(spec: Spec, w: World, resetRequired: bool): World {
    Then(spec, Settle(spec, Then(spec, w, resetRequired), resetRequired), resetRequired)
  }

  function Cycles(spec: Spec, w: World, resets: seq<bool>): World
    decreases |resets|
  {
    if resets == [] then w else Cycles(spec, Cycle(spec, w, resets[0]), resets[1..])
  }

  /** Ready to issue: in progress, stabilised, with no reset pending. */
  predicate AtStart(spec: Spec, w: World) {
    && w.st.phase == Progressing && MustIssue(spec, w.st) && w.st.initialReset.isTrue && w.op == NoOperation
    && Distinct(spec.flow) && InOrder(w.st.fs, SortedSettingsFlowGroups(spec.flow))
  }

  /** Every merged key has its desired value. */
  predicate Reached(spec: Spec, w: World) {
    w.st.phase == Done && forall k :: k in Merged(spec.flow) ==> k in w.attrs && w.attrs[k] == Merged(spec.flow)[k]
  }

  predicate MergedMatches(spec: Spec, w: World) {
    Diff(Merged(spec.flow), w.attrs) == map[]
  }

  lemma MatchMeansValues(spec: Spec, w: World)
    requires w.st.phase == Done && MergedMatches(spec, w)
    ensures Reached(spec, w)
  {
    forall k | k in Merged(spec.flow)
      ensures k in w.attrs && w.attrs[k] == Merged(spec.flow)[k]
    {
      assert k !in Diff(Merged(spec.flow), w.attrs);
    }
  }

  /** A reconcile in progress ends Applied exactly when the BMC already has every merged value. */
  lemma AppliedIffMergedMatches(spec: Spec, w: World, env: Env)
    requires w.st.phase == Progressing
    ensures Reconcile(spec, w, env).w.st.phase == Done <==> MergedMatches(spec, w)
  {
    if !MergedMatches(spec, w) {
      var md := Diff(Merged(spec.flow), w.attrs);
      if spec.flow != [] {
        NoSilentVerify(w.st.fs, spec.flow, w.attrs, md);
      }
    }
  }

  /** With merged drift left, verification never reports both no change and no difference. */
  lemma NoSilentVerify(fs: seq<FlowStatus>, flow: seq<FlowItem>, attrs: Attrs, md: Attrs)
    requires flow != [] && md != map[]
    ensures var g := GroupDiffOf(fs, flow, attrs, md, true); g.changed || g.diff != map[]
  {
    OpenIsNonempty(fs, SortedSettingsFlowGroups(flow), attrs);
  }

  lemma {:induction false} OpenIsNonempty(fs: seq<FlowStatus>, items: seq<FlowItem>, attrs: Attrs)
    ensures var p := ForwardPass(fs, items, attrs, true); p.open.Some? ==> p.open.value != map[]
    decreases |items|
  {
    if items != [] {
      OpenIsNonempty(fs, items[1..], attrs);
      OpenIsNonempty(Upsert(fs, items[0], Applied), items[1..], attrs);
    }
  }

  lemma WrittenMatches(desired: Attrs, attrs: Attrs)
    ensures Diff(desired, attrs + Diff(desired, attrs)) == map[]
  {
  }

  // ---------------------------------------------------------------- one cycle

  /** The world between the issue of group `m` and its verification. */
  ghost predicate GroupIssued(spec: Spec, w: World, m: nat) {
    var sorted := SortedSettingsFlowGroups(spec.flow);
    && w.st.phase == Progressing && w.st.issued == Issued(ChangesIssued, spec.generation) && w.st.initialReset.isTrue
    && Distinct(spec.flow) && InOrder(w.st.fs, sorted) && AppliedCount(w.st.fs) == m < |sorted|
    && Diff(sorted[m].settings, w.attrs) == map[]
    && !MergedMatches(spec, w)
  }

  lemma IssueStep(spec: Spec, w: World, resetRequired: bool, fs0: seq<FlowStatus>)
    requires AtStart(spec, w) && !MergedMatches(spec, w)
    requires fs0 == if ClearFires(spec, w.st) then [] else w.st.fs
    ensures var w' := Then(spec, w, resetRequired);
            var sorted := SortedSettingsFlowGroups(spec.flow);
            var m := FirstOpen(sorted, w.attrs, AppliedCount(fs0));
            && w'.st.phase == Progressing && w'.op == NoOperation && w'.st.observed == w.st.observed
            && w'.st.postReset == (if resetRequired then ResetCond(false, ResetRequired) else ResetCond(true, NoResetRequired))
            && (m == |sorted| ==> MergedMatches(spec, w'))
            && (m < |sorted| ==> w'.attrs == w.attrs + Diff(sorted[m].settings, w.attrs))
            && (MergedMatches(spec, w') || GroupIssued(spec, w', m))
  {
    var sorted := SortedSettingsFlowGroups(spec.flow);
    var md := Diff(Merged(spec.flow), w.attrs);
    SortedDistinct(spec.flow);
    assert sorted[0..] == sorted;
    PassAdvances(fs0, sorted, 0, w.attrs, false);
    var m := FirstOpen(sorted, w.attrs, AppliedCount(fs0));
    var g := GroupDiffOf(fs0, spec.flow, w.attrs, md, false);
    var out := IssuePhase(spec, w, md, Calm(resetRequired));
    assert Then(spec, w, resetRequired) == out.w;
    if m < |sorted| {
      WrittenMatches(sorted[m].settings, w.attrs);
    } else {
      WrittenMatches(Merged(spec.flow), w.attrs);
    }
  }

  /** The reset leaves everything but the reset bookkeeping alone. */
  lemma SettleStep(spec: Spec, w: World, m: nat, resetRequired: bool)
    requires GroupIssued(spec, w, m) && w.op == NoOperation
    requires w.st.postReset == if resetRequired then ResetCond(false, ResetRequired) else ResetCond(true, NoResetRequired)
    ensures var w' := Settle(spec, w, resetRequired);
            && GroupIssued(spec, w', m) && w'.op == NoOperation && w'.st.postReset.isTrue
            && w'.attrs == w.attrs && w'.st.fs == w.st.fs && w'.st.observed == w.st.observed
  {
    if resetRequired {
      var requested := Then(spec, w, true);
      assert requested == w.(st := w.st.(postReset := ResetCond(false, ResetIssued)), op := GracefulRestart);
      assert Settle(spec, w, true) == w.(st := w.st.(postReset := ResetCond(true, ResetIssued)));
    }
  }

  /** Verification marks the issued group Applied and moves on. */
  lemma VerifyStep(spec: Spec, w: World, m: nat, resetRequired: bool)
    requires GroupIssued(spec, w, m) && w.op == NoOperation && w.st.postReset.isTrue
    ensures var w' := Then(spec, w, resetRequired);
            && AtStart(spec, w') && AppliedCount(w'.st.fs) > m && w'.attrs == w.attrs
            && w'.st.observed == w.st.observed && w'.st.issued.observed == spec.generation
  {
    var sorted := SortedSettingsFlowGroups(spec.flow);
    var md := Diff(Merged(spec.flow), w.attrs);
    SortedDistinct(spec.flow);
    assert sorted[0..] == sorted;
    PassAdvances(w.st.fs, sorted, 0, w.attrs, true);
    assert FirstOpen(sorted, w.attrs, m) > m;
    assert Then(spec, w, resetRequired) == VerifyPhase(spec, w, md).w;
  }

  lemma SettleOfMatch(spec: Spec, w: World, resetRequired: bool)
    requires w.st.phase == Progressing && MergedMatches(spec, w)
    ensures Reached(spec, Then(spec, Settle(spec, w, resetRequired), resetRequired))
    ensures Then(spec, Settle(spec, w, resetRequired), resetRequired).attrs == w.attrs
  {
    MatchMeansValues(spec, Then(spec, Settle(spec, w, resetRequired), resetRequired));
  }

  /** The flow state a cycle works from, and the group it issues: the number of groups stands for merged drift. */
  function Start(spec: Spec, w: World): seq<FlowStatus> {
    if ClearFires(spec, w.st) then [] else w.st.fs
  }

  function NextGroup(spec: Spec, w: World): nat
    requires AppliedCount(Start(spec, w)) <= |SortedSettingsFlowGroups(spec.flow)|
  {
    FirstOpen(SortedSettingsFlowGroups(spec.flow), w.attrs, AppliedCount(Start(spec, w)))
  }

  /** What a whole cycle does: it ends Applied, or it has written the next open group and moved past it. */
  ghost predicate CycleMoves(spec: Spec, w: World, w': World)
    requires AppliedCount(Start(spec, w)) <= |SortedSettingsFlowGroups(spec.flow)|
  {
    var sorted := SortedSettingsFlowGroups(spec.flow);
    var m := NextGroup(spec, w);
    var written := if m < |sorted| then w.attrs + Diff(sorted[m].settings, w.attrs) else w.attrs;
    if MergedMatches(spec, w) || m == |sorted| || MergedMatches(spec, w.(attrs := written)) then Reached(spec, w')
    else
      && AtStart(spec, w') && AppliedCount(w'.st.fs) > m && w'.attrs == written
      && w'.st.observed == w.st.observed && w'.st.issued.observed == spec.generation
  }

  lemma CycleIssuesNextGroup(spec: Spec, w: World, resetRequired: bool)
    requires AtStart(spec, w)
    ensures CycleMoves(spec, w, Cycle(spec, w, resetRequired))
  {
    if MergedMatches(spec, w) {
      MatchMeansValues(spec, Then(spec, w, resetRequired));
    } else {
      IssueStep(spec, w, resetRequired, Start(spec, w));
      var issued := Then(spec, w, resetRequired);
      if MergedMatches(spec, issued) {
        SettleOfMatch(spec, issued, resetRequired);
      } else {
        SettleStep(spec, issued, NextGroup(spec, w), resetRequired);
        VerifyStep(spec, Settle(spec, issued, resetRequired), NextGroup(spec, w), resetRequired);
      }
    }
  }

  // ---------------------------------------------------------------- convergence

  lemma {:induction false} ReachedStays(spec: Spec, w: World, resets: seq<bool>)
    requires Reached(spec, w)
    ensures Reached(spec, Cycles(spec, w, resets))
    decreases |resets|
  {
    if resets != [] {
      assert Cycle(spec, w, resets[0]).attrs == w.attrs;
      ReachedStays(spec, Cycle(spec, w, resets[0]), resets[1..]);
    }
  }

  lemma SameLength(flow: seq<FlowItem>)
    ensures |SortedSettingsFlowGroups(flow)| == |flow|
  {
    SortedGroups(flow, 0);
    assert |multiset(SortedSettingsFlowGroups(flow))| == |multiset(flow)|;
  }

  /** One cycle ends Applied, or with more groups Applied than before. */
  lemma CycleProgresses(spec: Spec, w: World, resetRequired: bool)
    requires AtStart(spec, w) && !ClearFires(spec, w.st)
    ensures var w' := Cycle(spec, w, resetRequired);
            || Reached(spec, w')
            || (AtStart(spec, w') && !ClearFires(spec, w'.st) && AppliedCount(w'.st.fs) > AppliedCount(w.st.fs))
  {
    CycleIssuesNextGroup(spec, w, resetRequired);
  }

  /** One cycle per unapplied group and one more for merged drift reach Applied with every merged value. */
  lemma {:induction false} FlowConverges(spec: Spec, w: World, resets: seq<bool>)
    requires AtStart(spec, w) && !ClearFires(spec, w.st)
    requires |resets| >= |spec.flow| - AppliedCount(w.st.fs) + 1
    ensures Reached(spec, Cycles(spec, w, resets))
    decreases |resets|
  {
    SameLength(spec.flow);
    var next := Cycle(spec, w, resets[0]);
    CycleProgresses(spec, w, resets[0]);
    if Reached(spec, next) {
      ReachedStays(spec, next, resets[1..]);
    } else {
      FlowConverges(spec, next, resets[1..]);
    }
  }

  /** While a reset is pending the object waits: a reconcile changes nothing. */
  lemma PendingResetWaits(spec: Spec, w: World, env: Env)
    requires w.st.phase == Progressing && w.st.initialReset.isTrue && !MustIssue(spec, w.st)
    requires w.st.postReset == ResetCond(false, ResetIssued) && w.op == GracefulRestart && !MergedMatches(spec, w)
    ensures Reconcile(spec, w, env).w == w
  {
  }

  // ---------------------------------------------------------------- groups that agree

  /** No two groups want different values for one key. */
  predicate Agree(flow: seq<FlowItem>) {
    forall i, j, k :: 0 <= i < |flow| && 0 <= j < |flow| && k in flow[i].settings && k in flow[j].settings
                      ==> flow[i].settings[k] == flow[j].settings[k]
  }

  function Unmatched(items: seq<FlowItem>, attrs: Attrs): nat {
    if items == [] then 0 else (if Diff(items[0].settings, attrs) == map[] then 0 else 1) + Unmatched(items[1..], attrs)
  }

  lemma {:induction false} FewerUnmatched(items: seq<FlowItem>, attrs: Attrs, attrs': Attrs, m: nat)
    requires forall j :: 0 <= j < |items| && Diff(items[j].settings, attrs) == map[] ==> Diff(items[j].settings, attrs') == map[]
    requires m < |items| ==> Diff(items[m].settings, attrs) != map[] && Diff(items[m].settings, attrs') == map[]
    ensures Unmatched(items, attrs') + (if m < |items| then 1 else 0) <= Unmatched(items, attrs)
  {
    if items != [] {
      FewerUnmatched(items[1..], attrs, attrs', if m == 0 then |items| else m - 1);
    }
  }

  lemma AgreeingWriteKeepsMatches(items: seq<FlowItem>, attrs: Attrs, m: nat, j: nat)
    requires Agree(items) && m < |items| && j < |items| && Diff(items[j].settings, attrs) == map[]
    ensures Diff(items[j].settings, attrs + Diff(items[m].settings, attrs)) == map[]
  {
    var attrs' := attrs + Diff(items[m].settings, attrs);
    forall k | k in items[j].settings
      ensures k in attrs' && attrs'[k] == items[j].settings[k]
    {
      assert k !in Diff(items[j].settings, attrs);
    }
  }

  lemma SortedAgrees(flow: seq<FlowItem>)
    requires Agree(flow)
    ensures Agree(SortedSettingsFlowGroups(flow))
  {
    SortedGroups(flow, 0);
    var sorted := SortedSettingsFlowGroups(flow);
    forall i | 0 <= i < |sorted|
      ensures sorted[i] in flow
    {
      assert sorted[i] in multiset(sorted);
    }
  }

  lemma AgreeingCycleMatchesMore(spec: Spec, w: World, resetRequired: bool)
    requires AtStart(spec, w) && Agree(spec.flow)
    ensures var w' := Cycle(spec, w, resetRequired);
            var sorted := SortedSettingsFlowGroups(spec.flow);
            || Reached(spec, w')
            || (AtStart(spec, w') && Unmatched(sorted, w'.attrs) < Unmatched(sorted, w.attrs))
  {
    CycleIssuesNextGroup(spec, w, resetRequired);
    var w' := Cycle(spec, w, resetRequired);
    if !Reached(spec, w') {
      var sorted := SortedSettingsFlowGroups(spec.flow);
      var m := NextGroup(spec, w);
      SortedAgrees(spec.flow);
      forall j | 0 <= j < |sorted| && Diff(sorted[j].settings, w.attrs) == map[]
        ensures Diff(sorted[j].settings, w'.attrs) == map[]
      {
        AgreeingWriteKeepsMatches(sorted, w.attrs, m, j);
      }
      WrittenMatches(sorted[m].settings, w.attrs);
      FewerUnmatched(sorted, w.attrs, w'.attrs, m);
    }
  }

  /** Groups that agree on their common keys converge even when the flow progress is cleared every time. */
  lemma {:induction false} AgreeingFlowConverges(spec: Spec, w: World, resets: seq<bool>)
    requires AtStart(spec, w) && Agree(spec.flow)
    requires |resets| > Unmatched(SortedSettingsFlowGroups(spec.flow), w.attrs)
    ensures Reached(spec, Cycles(spec, w, resets))
    decreases |resets|
  {
    var next := Cycle(spec, w, resets[0]);
    AgreeingCycleMatchesMore(spec, w, resets[0]);
    if Reached(spec, next) {
      ReachedStays(spec, next, resets[1..]);
    } else {
      AgreeingFlowConverges(spec, next, resets[1..]);
    }
  }
}
