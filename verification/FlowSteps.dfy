/**
 What one reconcile of a settings object does, told by what it finds: when it writes to the BMC and what,
 when it asks for a reset, verifies, fails, starts over or leaves everything alone.
 */
module FlowSteps {
  import opened Options
  import opened BmcReset
  import opened SettingsFlow
  import opened FlowOrder
  import opened FlowConvergence
  import opened FlowReset

  // ---------------------------------------------------------------- maintenance

  /** Without granted maintenance the controller never touches the BMC, in whatever phase. */
  lemma OnlyUnderMaintenance(spec: Spec, w: World, env: Env)
    requires !env.granted
    ensures var out := Reconcile(spec, w, env); out.w.attrs == w.attrs && out.w.op == w.op && out.events == []
  {
  }

  /** An object in progress then waits, unless the BMC already has every merged value. */
  lemma WaitsForMaintenance(spec: Spec, w: World, env: Env)
    requires w.st.phase == Progressing && !env.granted
    ensures if MergedMatches(spec, w) then Reconcile(spec, w, env).w.st.phase == Done else Reconcile(spec, w, env).w == w
  {
  }

  /** In progress under maintenance, with something left to do and the stabilising reset behind it. */
  predicate Working(spec: Spec, w: World, env: Env) {
    && w.st.phase == Progressing && !MergedMatches(spec, w) && env.granted
    && (w.st.initialReset.isTrue || (w.st.initialReset.reason != ResetIssued && env.recentReset && env.persisted))
  }

  /** Nothing is issued for this generation of the spec. */
  predicate Unissued(spec: Spec, w: World) {
    w.st.issued.reason != ChangesIssued || w.st.issued.observed < spec.generation
  }

  predicate Writes(spec: Spec, w: World, env: Env) {
    Working(spec, w, env) && Unissued(spec, w) && env.powered && !env.pendingAttrs && env.verdict.Accepted?
  }

  /** The world in which the update runs: a recent reset may have stood in for the stabilising one. */
  function Stabilised(w: World): World {
    w.(st := w.st.(initialReset := if w.st.initialReset.isTrue then w.st.initialReset else ResetCond(true, ResetIssued)))
  }

  lemma WorkingUpdates(spec: Spec, w: World, env: Env)
    requires Working(spec, w, env)
    ensures Reconcile(spec, w, env) == UpdateOutcome(spec, Stabilised(w), Diff(Merged(spec.flow), w.attrs), env)
  {
    var call := ResetCall(w.st.initialReset, false, env.recentReset, w.op, env.persisted);
    assert w.(st := w.st.(initialReset := call.cond), op := call.op) == Stabilised(w);
  }

  lemma {:induction false} SomethingOpen(fs: seq<FlowStatus>, items: seq<FlowItem>, attrs: Attrs)
    ensures var p := ForwardPass(fs, items, attrs, false); p.open.Some? ==> p.open.value != map[]
    ensures var p := ForwardPass(fs, items, attrs, false);
            p.open.Some? ==> forall k :: k in p.open.value ==> !(k in attrs && attrs[k] == p.open.value[k])
    decreases |items|
  {
    if items != [] {
      SomethingOpen(fs, items[1..], attrs);
      SomethingOpen(Upsert(fs, items[0], Applied), items[1..], attrs);
    }
  }

  lemma IssueChangesBmc(spec: Spec, w: World, md: Attrs, env: Env)
    requires md == Diff(Merged(spec.flow), w.attrs) && md != map[]
    ensures IssuePhase(spec, w, md, env).w.attrs != w.attrs <==> env.powered && !env.pendingAttrs && env.verdict.Accepted?
  {
    var fs0 := if ClearFires(spec, w.st) then [] else w.st.fs;
    SomethingOpen(fs0, SortedSettingsFlowGroups(spec.flow), w.attrs);
    var diff := GroupDiffOf(fs0, spec.flow, w.attrs, md, false).diff;
    assert diff != map[] && forall k :: k in diff ==> !(k in w.attrs && w.attrs[k] == diff[k]);
    var k :| k in diff;
    assert (w.attrs + diff)[k] == diff[k];
  }

  /**
   The controller changes attributes of the BMC exactly in a reconcile under granted maintenance that has
   something left to issue, finds the BMC on and free of pending settings, and has its settings accepted.
   */
  lemma WritesIff(spec: Spec, w: World, env: Env)
    ensures Reconcile(spec, w, env).w.attrs != w.attrs <==> Writes(spec, w, env)
  {
    if Working(spec, w, env) {
      WorkingUpdates(spec, w, env);
      if Unissued(spec, w) {
        IssueChangesBmc(spec, Stabilised(w), Diff(Merged(spec.flow), w.attrs), env);
      }
    }
  }

  /** Over runs: an attribute changes only through a foreign change or a reconcile that writes. */
  lemma {:induction false} EveryWriteIsGranted(h: History, moves: seq<Move>) returns (i: nat)
    requires Play(h, moves).w.attrs != h.w.attrs
    ensures i < |moves|
    ensures moves[i].Outside? || (moves[i].Rec? && Writes(moves[i].spec, Play(h, moves[..i]).w, moves[i].env))
  {
    var last := |moves| - 1;
    var before := Play(h, moves[..last]);
    if before.w.attrs != h.w.attrs {
      i := EveryWriteIsGranted(h, moves[..last]);
      assert moves[..last][..i] == moves[..i];
    } else {
      i := last;
      if moves[last].Rec? {
        WritesIff(moves[last].spec, before.w, moves[last].env);
      }
    }
  }

  // ---------------------------------------------------------------- what is written, and what is remembered of it

  /** The flow progress the update starts from: none when the spec is newer than what was observed. */
  predicate Forgets(spec: Spec, st: Status) {
    0 < st.issued.observed < spec.generation || 0 < st.observed < spec.generation
  }

  function Progress(spec: Spec, w: World): seq<FlowStatus> {
    if Forgets(spec, w.st) then [] else w.st.fs
  }

  /** The settings written next: those of the first open group, or all merged ones once every group is applied. */
  function NextSettings(spec: Spec, w: World): Attrs
    requires AppliedCount(Progress(spec, w)) <= |SortedSettingsFlowGroups(spec.flow)|
  {
    var sorted := SortedSettingsFlowGroups(spec.flow);
    var m := FirstOpen(sorted, w.attrs, AppliedCount(Progress(spec, w)));
    if m < |sorted| then sorted[m].settings else Merged(spec.flow)
  }

  lemma NextDiff(flow: seq<FlowItem>, fs: seq<FlowStatus>, attrs: Attrs, md: Attrs)
    requires flow != [] && Distinct(flow) && InOrder(fs, SortedSettingsFlowGroups(flow)) && md != map[]
    ensures var sorted := SortedSettingsFlowGroups(flow);
            var m := FirstOpen(sorted, attrs, AppliedCount(fs));
            GroupDiffOf(fs, flow, attrs, md, false).diff == if m < |sorted| then Diff(sorted[m].settings, attrs) else md
  {
    var sorted := SortedSettingsFlowGroups(flow);
    SortedDistinct(flow);
    assert sorted[0..] == sorted;
    PassAdvances(fs, sorted, 0, attrs, false);
  }

  lemma IssueAttrs(spec: Spec, w: World, md: Attrs, env: Env)
    requires w.st.phase == Progressing && env.powered && !env.pendingAttrs && env.verdict.Accepted?
    ensures IssuePhase(spec, w, md, env).w.attrs == w.attrs + GroupDiffOf(Progress(spec, w), spec.flow, w.attrs, md, false).diff
  {
  }

  lemma IssueWrites(spec: Spec, w: World, env: Env)
    requires w.st.phase == Progressing && !MergedMatches(spec, w) && env.powered && !env.pendingAttrs && env.verdict.Accepted?
    requires Distinct(spec.flow) && InOrder(w.st.fs, SortedSettingsFlowGroups(spec.flow))
    ensures IssuePhase(spec, w, Diff(Merged(spec.flow), w.attrs), env).w.attrs == w.attrs + Diff(NextSettings(spec, w), w.attrs)
  {
    var md := Diff(Merged(spec.flow), w.attrs);
    assert spec.flow != [];
    IssueAttrs(spec, w, md, env);
    NextDiff(spec.flow, Progress(spec, w), w.attrs, md);
  }

  /** A write puts the missing values of the next settings on the BMC and nothing else. */
  lemma WritesNextSettings(spec: Spec, w: World, env: Env)
    requires Writes(spec, w, env) && Distinct(spec.flow) && InOrder(w.st.fs, SortedSettingsFlowGroups(spec.flow))
    ensures Reconcile(spec, w, env).w.attrs == w.attrs + Diff(NextSettings(spec, w), w.attrs)
  {
    WorkingUpdates(spec, w, env);
    IssueWrites(spec, Stabilised(w), env);
  }

  /** What a write leaves in the status: everything for this generation, or nothing when its patch is lost. */
  lemma WriteIsRemembered(spec: Spec, w: World, env: Env)
    requires Writes(spec, w, env)
    ensures var out := Reconcile(spec, w, env);
            var needed := env.verdict.resetRequired;
            if env.persisted then
              && out.events == [Happening.Issue(needed)] && out.w.st.phase == Progressing
              && out.w.st.issued == Issued(ChangesIssued, spec.generation)
              && out.w.st.postReset == (if needed then ResetCond(false, ResetRequired) else ResetCond(true, NoResetRequired))
              && out.w.st.initialReset.isTrue && out.w.op == w.op
            else out.events == [] && out.w.st == w.st && out.w.op == w.op
  {
    WorkingUpdates(spec, w, env);
  }

  lemma {:induction false} OpenedIsInProgress(fs: seq<FlowStatus>, sorted: seq<FlowItem>, i: nat, attrs: Attrs)
    requires InOrder(fs, sorted) && Distinct(sorted) && i <= AppliedCount(fs)
    requires FirstOpen(sorted, attrs, AppliedCount(fs)) < |sorted|
    ensures var p, m := ForwardPass(fs, sorted[i..], attrs, false), FirstOpen(sorted, attrs, AppliedCount(fs));
            |p.fs| == m + 1 && p.fs[m].state == InProgress
    decreases |sorted| - i
  {
    assert sorted[i..][0] == sorted[i] && sorted[i..][1..] == sorted[i + 1..];
    EntryInOrder(fs, sorted, i);
    if i < AppliedCount(fs) {
      OpenedIsInProgress(fs, sorted, i + 1, attrs);
    } else if Diff(sorted[i].settings, attrs) == map[] {
      UpsertInOrder(fs, sorted, i, Applied);
      OpenedIsInProgress(Upsert(fs, sorted[i], Applied), sorted, i + 1, attrs);
    } else {
      OpenedFully(fs, sorted, i);
    }
  }

  /** A group that verification meets for the first time becomes Pending. */
  lemma {:induction false} OpenedIsPending(fs: seq<FlowStatus>, sorted: seq<FlowItem>, i: nat, attrs: Attrs)
    requires InOrder(fs, sorted) && Distinct(sorted) && i <= AppliedCount(fs)
    requires AppliedCount(fs) < FirstOpen(sorted, attrs, AppliedCount(fs)) < |sorted|
    ensures var p, m := ForwardPass(fs, sorted[i..], attrs, true), FirstOpen(sorted, attrs, AppliedCount(fs));
            |p.fs| == m + 1 && p.fs[m].state == Pending
    decreases |sorted| - i
  {
    var n := AppliedCount(fs);
    assert sorted[i..][0] == sorted[i] && sorted[i..][1..] == sorted[i + 1..];
    EntryInOrder(fs, sorted, i);
    if i < n {
      OpenedIsPending(fs, sorted, i + 1, attrs);
    } else {
      var fs' := Upsert(fs, sorted[i], Applied);
      UpsertInOrder(fs, sorted, i, Applied);
      if FirstOpen(sorted, attrs, n) > n + 1 {
        OpenedIsPending(fs', sorted, i + 1, attrs);
      } else {
        EntryInOrder(fs', sorted, i + 1);
        assert sorted[i + 1..][0] == sorted[i + 1];
        UpsertInOrder(fs', sorted, i + 1, Pending);
      }
    }
  }

  lemma OpenedFully(fs: seq<FlowStatus>, sorted: seq<FlowItem>, i: nat)
    requires InOrder(fs, sorted) && Distinct(sorted) && i < |sorted| && i == AppliedCount(fs)
    ensures var fs' := Opened(fs, sorted[i], false); |fs'| == i + 1 && fs'[i].state == InProgress
  {
    EntryInOrder(fs, sorted, i);
    var seen := if EntryOf(fs, sorted[i]) == |fs| then Upsert(fs, sorted[i], Pending) else fs;
    if seen != fs {
      UpsertInOrder(fs, sorted, i, Pending);
    }
    UpsertInOrder(seen, sorted, i, InProgress);
  }

  /** The group that is written is the last entry of the flow state, and it is in progress. */
  lemma WrittenGroupIsInProgress(spec: Spec, w: World, env: Env)
    requires Writes(spec, w, env) && env.persisted && Distinct(spec.flow) && InOrder(w.st.fs, SortedSettingsFlowGroups(spec.flow))
    requires FirstOpen(SortedSettingsFlowGroups(spec.flow), w.attrs, AppliedCount(Progress(spec, w))) < |spec.flow|
    ensures var m := FirstOpen(SortedSettingsFlowGroups(spec.flow), w.attrs, AppliedCount(Progress(spec, w)));
            var fs := Reconcile(spec, w, env).w.st.fs;
            |fs| == m + 1 && fs[m].state == InProgress
  {
    var sorted := SortedSettingsFlowGroups(spec.flow);
    SortedDistinct(spec.flow);
    SameLength(spec.flow);
    assert sorted[0..] == sorted;
    WorkingUpdates(spec, w, env);
    PassAdvances(Progress(spec, w), sorted, 0, w.attrs, false);
    OpenedIsInProgress(Progress(spec, w), sorted, 0, w.attrs);
  }

  // ---------------------------------------------------------------- resets, verification, failure

  /** A condition that a call of the reset machine answers by asking. */
  predicate Unasked(cond: ResetCond) {
    !cond.isTrue && cond.reason != ResetIssued
  }

  predicate AsksFirst(spec: Spec, w: World, env: Env) {
    w.st.phase == Progressing && !MergedMatches(spec, w) && env.granted && Unasked(w.st.initialReset) && !env.recentReset
  }

  predicate AsksAfterApply(spec: Spec, w: World, env: Env) {
    Working(spec, w, env) && !Unissued(spec, w) && Unasked(w.st.postReset)
  }

  predicate AsksForRetry(w: World, env: Env) {
    w.st.phase == Broken && env.granted && env.retry == Waiting(true)
  }

  lemma WorkingAsksIff(spec: Spec, w: World, env: Env)
    requires Working(spec, w, env)
    ensures Reconcile(spec, w, env).w.op == if AsksAfterApply(spec, w, env) && w.op == NoOperation then GracefulRestart else w.op
  {
    WorkingUpdates(spec, w, env);
  }

  /** The annotation changes exactly when a reset is due that nobody asked for, and then to a request for one. */
  lemma AnnotationChangesIff(spec: Spec, w: World, env: Env)
    ensures var asks := AsksFirst(spec, w, env) || AsksAfterApply(spec, w, env) || AsksForRetry(w, env);
            Reconcile(spec, w, env).w.op == if asks && w.op == NoOperation then GracefulRestart else w.op
  {
    if Working(spec, w, env) {
      WorkingAsksIff(spec, w, env);
    }
  }

  /** The stabilising reset: asked for, waited for, seen done, or stood in for by a recent one. */
  lemma StabilisingReset(spec: Spec, w: World, env: Env)
    requires w.st.phase == Progressing && !MergedMatches(spec, w) && env.granted && !Working(spec, w, env)
    ensures var st' := Reconcile(spec, w, env).w.st;
            st'.(initialReset := w.st.initialReset) == w.st
            && st'.initialReset ==
               if !env.persisted then w.st.initialReset
               else if w.st.initialReset.reason != ResetIssued then (if w.op == OtherOperation then w.st.initialReset else ResetCond(false, ResetIssued))
               else if w.op == GracefulRestart then w.st.initialReset
               else ResetCond(true, ResetIssued)
  {
  }

  /** A reconcile verifies exactly when its issue is current and the reset it owed is seen done or not needed. */
  lemma VerifiesIff(spec: Spec, w: World, env: Env)
    ensures Reconcile(spec, w, env).events == [Verify] <==> Working(spec, w, env) && !Unissued(spec, w) && w.st.postReset.isTrue
  {
    if Working(spec, w, env) {
      WorkingUpdates(spec, w, env);
    }
  }

  /** Verification moves past every group the BMC matches by now, and issues again whenever something moved or all are applied. */
  lemma VerifyAdvances(spec: Spec, w: World, env: Env)
    requires Working(spec, w, env) && !Unissued(spec, w) && w.st.postReset.isTrue
    requires Distinct(spec.flow) && InOrder(w.st.fs, SortedSettingsFlowGroups(spec.flow))
    ensures var sorted := SortedSettingsFlowGroups(spec.flow);
            var m := FirstOpen(sorted, w.attrs, AppliedCount(w.st.fs));
            var st' := Reconcile(spec, w, env).w.st;
            if m > AppliedCount(w.st.fs) || m == |sorted| then
              AppliedCount(st'.fs) == m && st'.issued == Issued(VerificationPending, w.st.issued.observed) && st'.phase == Progressing
            else st' == Stabilised(w).st
  {
    var sorted := SortedSettingsFlowGroups(spec.flow);
    SortedDistinct(spec.flow);
    assert sorted[0..] == sorted;
    PassAdvances(w.st.fs, sorted, 0, w.attrs, true);
    WorkingUpdates(spec, w, env);
    assert spec.flow != [];
  }

  /**
   A verification that finds every merged value there: the object is Applied once no group is open any more,
   first passes the groups that match by now, and waits for a group that another one overrides.
   */
  lemma VerifiedIsDone(spec: Spec, w: World)
    requires MergedMatches(spec, w) && Distinct(spec.flow) && InOrder(w.st.fs, SortedSettingsFlowGroups(spec.flow))
    ensures var sorted, p := SortedSettingsFlowGroups(spec.flow), AppliedCount(w.st.fs);
            var m := FirstOpen(sorted, w.attrs, p);
            var out := VerifyPhase(spec, w, map[]);
            && out.w.attrs == w.attrs && out.w.op == w.op && out.events == [Verify]
            && (if m > p then out.w.st.phase == w.st.phase && out.w.st.issued.reason == VerificationPending && AppliedCount(out.w.st.fs) == m
                else if m == |sorted| then out.w.st == w.st.(phase := Done)
                else out.w.st == w.st)
  {
    var sorted := SortedSettingsFlowGroups(spec.flow);
    SortedDistinct(spec.flow);
    assert sorted[0..] == sorted;
    PassAdvances(w.st.fs, sorted, 0, w.attrs, true);
    SomethingOpen(w.st.fs, sorted, w.attrs);
  }

  /** The group verification moves on to is noted as Pending. */
  lemma NextGroupIsPending(spec: Spec, w: World, env: Env)
    requires Working(spec, w, env) && !Unissued(spec, w) && w.st.postReset.isTrue
    requires Distinct(spec.flow) && InOrder(w.st.fs, SortedSettingsFlowGroups(spec.flow))
    requires AppliedCount(w.st.fs) < FirstOpen(SortedSettingsFlowGroups(spec.flow), w.attrs, AppliedCount(w.st.fs)) < |spec.flow|
    ensures var m := FirstOpen(SortedSettingsFlowGroups(spec.flow), w.attrs, AppliedCount(w.st.fs));
            var fs := Reconcile(spec, w, env).w.st.fs;
            |fs| == m + 1 && fs[m].state == Pending
  {
    var sorted := SortedSettingsFlowGroups(spec.flow);
    SortedDistinct(spec.flow);
    SameLength(spec.flow);
    assert sorted[0..] == sorted;
    PassAdvances(w.st.fs, sorted, 0, w.attrs, true);
    OpenedIsPending(w.st.fs, sorted, 0, w.attrs);
    WorkingUpdates(spec, w, env);
  }

  predicate Fails(spec: Spec, w: World, env: Env) {
    Working(spec, w, env) && Unissued(spec, w) && (!env.powered || (!env.pendingAttrs && env.verdict == Invalid))
  }

  /** An object in progress fails exactly when its BMC is off or rejects the settings it is about to get. */
  lemma FailsIff(spec: Spec, w: World, env: Env)
    requires w.st.phase == Progressing
    ensures Reconcile(spec, w, env).w.st.phase == Broken <==> Fails(spec, w, env)
  {
    if Working(spec, w, env) {
      WorkingUpdates(spec, w, env);
    }
  }

  /** An issue that does not come to a write changes the phase at most: it fails, or waits. */
  lemma IssueWaits(spec: Spec, w: World, env: Env)
    requires Working(spec, w, env) && Unissued(spec, w) && !Writes(spec, w, env)
    ensures var out := Reconcile(spec, w, env);
            && out.events == []
            && out.w == if Fails(spec, w, env) then Stabilised(w).(st := Stabilised(w).st.(phase := Broken)) else Stabilised(w)
  {
    WorkingUpdates(spec, w, env);
  }

  /** An issue whose reset is not over changes nothing but the bookkeeping of that reset. */
  lemma OwedResetWaits(spec: Spec, w: World, env: Env)
    requires Working(spec, w, env) && !Unissued(spec, w) && !w.st.postReset.isTrue
    ensures var out := Reconcile(spec, w, env);
            && out.w.attrs == w.attrs && out.w.st == Stabilised(w).st.(postReset := out.w.st.postReset)
            && out.w.st.postReset ==
               if !env.persisted then w.st.postReset
               else if w.st.postReset.reason != ResetIssued then (if w.op == OtherOperation then w.st.postReset else ResetCond(false, ResetIssued))
               else if w.op == GracefulRestart then w.st.postReset
               else ResetCond(true, ResetIssued)
  {
    WorkingUpdates(spec, w, env);
  }

  // ---------------------------------------------------------------- the other phases

  /** Waiting objects start exactly when their gates are open. */
  lemma StartsIff(spec: Spec, w: World, env: Env)
    requires w.st.phase in {New, WaitingForGates}
    ensures Reconcile(spec, w, env) == SettingsFlow.Outcome.Outcome(w.(st := w.st.(phase := if env.gatesOpen then Progressing else WaitingForGates)), [])
  {
  }

  /** When the merged values are all there, every group counts as applied for this generation. */
  lemma SkipsMaintenance(spec: Spec, w: World, env: Env, item: FlowItem)
    requires w.st.phase == Progressing && MergedMatches(spec, w) && item in spec.flow
    requires Distinct(spec.flow) && InOrder(w.st.fs, SortedSettingsFlowGroups(spec.flow))
    ensures var st' := Reconcile(spec, w, env).w.st;
            IsApplied(st'.fs, item) && st' == w.st.(phase := Done, observed := spec.generation, fs := st'.fs)
  {
    var sorted := SortedSettingsFlowGroups(spec.flow);
    SortedDistinct(spec.flow);
    SortedGroups(spec.flow, 0);
    assert sorted[0..] == sorted;
    MarkAppliedInOrder(w.st.fs, sorted, 0);
    assert item in multiset(spec.flow);
    assert item in sorted;
    var i :| 0 <= i < |sorted| && sorted[i] == item;
    EntryInOrder(Reconcile(spec, w, env).w.st.fs, sorted, i);
  }

  /** An object without groups has nothing to record: it is Applied at once. */
  lemma EmptyFlowIsDone(spec: Spec, w: World, env: Env)
    requires w.st.phase == Progressing && spec.flow == []
    ensures Reconcile(spec, w, env).w == w.(st := w.st.(phase := Done))
  {
  }

  /** The spec is newer than anything the status has seen. */
  predicate NewGeneration(spec: Spec, st: Status) {
    spec.flow != [] && (Forgets(spec, st) || (st.issued.observed == 0 && st.observed == 0 && spec.generation > 1))
  }

  predicate AllApplied(spec: Spec, st: Status) {
    forall item :: item in spec.flow ==> IsApplied(st.fs, item)
  }

  /**
   An Applied object starts over exactly when its gates are open and either its spec is new or all its groups
   are applied and the BMC drifted; otherwise nothing changes.
   */
  lemma AppliedRestartsIff(spec: Spec, w: World, env: Env)
    requires w.st.phase == Done
    ensures var out := Reconcile(spec, w, env);
            var renewed := NewGeneration(spec, w.st);
            && out.events == [] && out.w.attrs == w.attrs && out.w.op == w.op
            && (if env.gatesOpen && (renewed || (AllApplied(spec, w.st) && !MergedMatches(spec, w))) then
                  && out.w.st.phase == New && out.w.st.issued == Issued(NotIssued, 0)
                  && out.w.st.initialReset == UNSET && out.w.st.postReset == UNSET
                  && out.w.st.fs == (if renewed then [] else w.st.fs)
                  && out.w.st.observed == (if renewed then spec.generation else w.st.observed)
                else out.w.st == w.st)
  {
  }

  lemma {:induction false} FailInProgressAt(fs: seq<FlowStatus>, i: nat)
    requires i < |fs|
    ensures |FailInProgress(fs)| == |fs|
    ensures FailInProgress(fs)[i] ==
              if fs[i].state == InProgress && forall j :: 0 <= j < i ==> fs[j].state != InProgress then fs[i].(state := Failed) else fs[i]
  {
    FailKeepsOrder(fs, i);
    if fs[0].state != InProgress && i > 0 {
      FailInProgressAt(fs[1..], i - 1);
      assert forall j :: 0 <= j < i - 1 ==> fs[1..][j] == fs[j + 1];
      assert forall j :: 1 <= j < i ==> fs[1..][j - 1] == fs[j];
    }
  }

  /** A failed object: starts over, waits for its retry, or has its group in progress marked as failed. */
  lemma FailedDoes(spec: Spec, w: World, env: Env)
    requires w.st.phase == Broken
    ensures var out := Reconcile(spec, w, env);
            && out.events == [] && out.w.attrs == w.attrs
            && (if env.retry == StartOver && env.granted then
                  && out.w.st.phase == WaitingForGates && out.w.st.fs == [] && out.w.st.observed == spec.generation
                  && out.w.st.issued == Issued(NotIssued, 0) && out.w.st.initialReset == UNSET && out.w.st.postReset == UNSET
                else
                  && out.w.st.phase == Broken && out.w.st.issued == w.st.issued
                  && out.w.st.initialReset == w.st.initialReset && out.w.st.postReset == w.st.postReset
                  && out.w.st.observed == (if env.noted then spec.generation else w.st.observed)
                  && out.w.st.fs == (if env.retry == NoRetry && spec.flow != [] then FailInProgress(w.st.fs) else w.st.fs))
  {
  }

  // ---------------------------------------------------------------- merging

  /** A merged key has the value of the last item of the list that sets it. */
  lemma {:induction false} MergedIsLast(flow: seq<FlowItem>, k: string)
    ensures k in Merged(flow) <==> exists i :: 0 <= i < |flow| && k in flow[i].settings
    ensures forall i :: 0 <= i < |flow| && k in flow[i].settings && (forall j :: i < j < |flow| ==> k !in flow[j].settings) ==>
              k in Merged(flow) && Merged(flow)[k] == flow[i].settings[k]
  {
    if flow != [] {
      var last := |flow| - 1;
      MergedIsLast(flow[..last], k);
      assert forall i :: 0 <= i < last ==> flow[..last][i] == flow[i];
    }
  }
}
