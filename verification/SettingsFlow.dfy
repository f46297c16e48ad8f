/**
 The settings flow of a BMCSettings object: priority-ordered groups that are issued to the BMC,
 settled by a reset, verified and advanced through the persisted FlowState. Variables are taken as
 already substituted and a difference is a comparison of values.
 */
module SettingsFlow {
  import opened Options
  import opened BmcReset

  datatype FlowItem = FlowItem(name: string, priority: int, settings: map<string, string>)
  datatype GroupState = Pending | InProgress | Applied | Failed
  datatype FlowStatus = FlowStatus(name: string, priority: int, state: GroupState)
  type Attrs = map<string, string>

  /** The desired keys whose value the BMC does not have. */
  function Diff(desired: Attrs, attrs: Attrs): Attrs {
    map k | k in desired && (k !in attrs || attrs[k] != desired[k]) :: desired[k]
  }

  // ---------------------------------------------------------------- the flow

  /** Later items of the list win, whatever their priority. */
  function Merged(flow: seq<FlowItem>): Attrs {
    if flow == [] then map[] else Merged(flow[..|flow| - 1]) + flow[|flow| - 1].settings
  }

  method MergeSettingsFlow(flow: seq<FlowItem>) returns (merged: Attrs)
    ensures merged == Merged(flow)
  {
    merged := map[];
    for i := 0 to |flow|
      invariant merged == Merged(flow[..i])
    {
      assert flow[..i + 1][..i] == flow[..i];
      merged := merged + flow[i].settings;
    }
    assert flow[..|flow|] == flow;
  }

  function Insert(item: FlowItem, sorted: seq<FlowItem>): seq<FlowItem> {
    if sorted == [] || item.priority <= sorted[0].priority then [item] + sorted
    else [sorted[0]] + Insert(item, sorted[1..])
  }

  /** The items by ascending priority, equal priorities in list order. */
  function SortedSettingsFlowGroups(flow: seq<FlowItem>): seq<FlowItem> {
    if flow == [] then [] else Insert(flow[0], SortedSettingsFlowGroups(flow[1..]))
  }

  predicate Ascending(items: seq<FlowItem>) {
    forall i, j :: 0 <= i < j < |items| ==> items[i].priority <= items[j].priority
  }

  function OfPriority(items: seq<FlowItem>, priority: int): (r: seq<FlowItem>)
    ensures forall item :: item in r <==> item in items && item.priority == priority
  {
    if items == [] then []
    else (if items[0].priority == priority then [items[0]] else []) + OfPriority(items[1..], priority)
  }

  lemma {:induction false} InsertPermutes(item: FlowItem, sorted: seq<FlowItem>)
    ensures multiset(Insert(item, sorted)) == multiset{item} + multiset(sorted)
  {
    if sorted != [] && item.priority > sorted[0].priority {
      InsertPermutes(item, sorted[1..]);
      assert sorted == [sorted[0]] + sorted[1..];
    }
  }

  lemma {:induction false} InsertAscends(item: FlowItem, sorted: seq<FlowItem>)
    requires Ascending(sorted)
    ensures Ascending(Insert(item, sorted))
  {
    if sorted != [] && item.priority > sorted[0].priority {
      InsertAscends(item, sorted[1..]);
      InsertPermutes(item, sorted[1..]);
      var rest := Insert(item, sorted[1..]);
      forall i | 0 <= i < |rest|
        ensures sorted[0].priority <= rest[i].priority
      {
        assert rest[i] in multiset(rest);
      }
    }
  }

  lemma {:induction false} InsertIsStable(item: FlowItem, sorted: seq<FlowItem>, priority: int)
    ensures OfPriority(Insert(item, sorted), priority) == OfPriority([item] + sorted, priority)
  {
    if sorted != [] && item.priority > sorted[0].priority {
      InsertIsStable(item, sorted[1..], priority);
    }
  }

  /** Sorting is a stable permutation into ascending priority. */
  lemma {:induction false} SortedGroups(flow: seq<FlowItem>, priority: int)
    ensures var sorted := SortedSettingsFlowGroups(flow);
            && Ascending(sorted) && multiset(sorted) == multiset(flow)
            && OfPriority(sorted, priority) == OfPriority(flow, priority)
  {
    if flow != [] {
      var rest := SortedSettingsFlowGroups(flow[1..]);
      SortedGroups(flow[1..], priority);
      InsertAscends(flow[0], rest);
      InsertPermutes(flow[0], rest);
      InsertIsStable(flow[0], rest, priority);
      assert flow == [flow[0]] + flow[1..];
    }
  }

  // ---------------------------------------------------------------- flow state

  predicate SameGroup(fs: FlowStatus, item: FlowItem) {
    fs.name == item.name && fs.priority == item.priority
  }

  /** The first entry of an item, or the length when it has none. */
  function EntryOf(fs: seq<FlowStatus>, item: FlowItem): (i: nat)
    ensures i <= |fs|
    ensures i < |fs| ==> SameGroup(fs[i], item)
    ensures forall j :: 0 <= j < i ==> !SameGroup(fs[j], item)
  {
    if fs == [] || SameGroup(fs[0], item) then 0 else 1 + EntryOf(fs[1..], item)
  }

  predicate IsApplied(fs: seq<FlowStatus>, item: FlowItem) {
    var i := EntryOf(fs, item);
    i < |fs| && fs[i].state == Applied
  }

  function Upsert(fs: seq<FlowStatus>, item: FlowItem, state: GroupState): seq<FlowStatus> {
    var i := EntryOf(fs, item);
    if i < |fs| then fs[i := fs[i].(state := state)] else fs + [FlowStatus(item.name, item.priority, state)]
  }

  /** What the pass over the sorted groups leaves: the states, whether a group became Applied, the open group. */
  datatype Pass = Pass(fs: seq<FlowStatus>, changed: bool, open: Option<Attrs>)

  function ForwardPass(fs: seq<FlowStatus>, items: seq<FlowItem>, attrs: Attrs, verifyOnly: bool): Pass
    decreases |items|
  {
    if items == [] then Pass(fs, false, None)
    else if IsApplied(fs, items[0]) then ForwardPass(fs, items[1..], attrs, verifyOnly)
    else if Diff(items[0].settings, attrs) == map[] then
      ForwardPass(Upsert(fs, items[0], Applied), items[1..], attrs, verifyOnly).(changed := true)
    else Pass(Opened(fs, items[0], verifyOnly), false, Some(Diff(items[0].settings, attrs)))
  }

  /** Pending on first encounter, InProgress when the group is about to be issued. */
  function Opened(fs: seq<FlowStatus>, item: FlowItem, verifyOnly: bool): seq<FlowStatus> {
    var seen := if EntryOf(fs, item) == |fs| then Upsert(fs, item, Pending) else fs;
    if verifyOnly then seen else Upsert(seen, item, InProgress)
  }

  function MarkApplied(fs: seq<FlowStatus>, items: seq<FlowItem>): seq<FlowStatus>
    decreases |items|
  {
    if items == [] then fs else MarkApplied(Upsert(fs, items[0], Applied), items[1..])
  }

  datatype GroupDiff = GroupDiff(fs: seq<FlowStatus>, changed: bool, diff: Attrs)

  /** The next open group's diff, or the merged diff once every group is Applied. */
  function GroupDiffOf(fs: seq<FlowStatus>, flow: seq<FlowItem>, attrs: Attrs, mergedDiff: Attrs, verifyOnly: bool): GroupDiff {
    if flow == [] then GroupDiff(fs, false, mergedDiff)
    else
      var sorted := SortedSettingsFlowGroups(flow);
      var pass := ForwardPass(fs, sorted, attrs, verifyOnly);
      if pass.open.Some? then GroupDiff(pass.fs, pass.changed, pass.open.value)
      else if mergedDiff == map[] then GroupDiff(pass.fs, pass.changed, map[])
      else GroupDiff(if verifyOnly then pass.fs else MarkApplied(pass.fs, sorted), true, mergedDiff)
  }

  // ---------------------------------------------------------------- the reconciler

  datatype Phase = New | WaitingForGates | Progressing | Done | Broken

  datatype IssuedReason = NotIssued | ChangesIssued | VerificationPending

  /** The ChangesIssued condition with the generation it observed. */
  datatype Issued = Issued(reason: IssuedReason, observed: nat)

  datatype Status = Status(
    phase: Phase,
    observed: nat,
    fs: seq<FlowStatus>,
    issued: Issued,
    initialReset: ResetCond,
    postReset: ResetCond)

  datatype Spec = Spec(flow: seq<FlowItem>, generation: nat)

  /** The persisted status, the attributes of the BMC and the operation annotation on it. */
  datatype World = World(st: Status, attrs: Attrs, op: Operation)

  datatype Verdict = Accepted(resetRequired: bool) | Invalid | Unreachable

  /**
   What one reconcile finds around it: whether the readiness gates are open (and the required version is
   reached), the maintenance granted, the BMC powered and free of pending settings. `persisted` is false
   when it is cut off after writing to the BMC.
   */
  datatype Env = Env(
    gatesOpen: bool,
    granted: bool,
    recentReset: bool,
    powered: bool,
    pendingAttrs: bool,
    verdict: Verdict,
    persisted: bool,
    retry: Retry,
    noted: bool)

  /** What a failed object does: nothing more, wait for the reset before its retry, or start over. */
  datatype Retry = NoRetry | Waiting(asked: bool) | StartOver

  datatype Happening = Issue(resetRequired: bool) | Request | SawDone | Verify

  datatype Outcome = Outcome(w: World, events: seq<Happening>)

  predicate ClearFires(spec: Spec, st: Status) {
    || 0 < st.issued.observed < spec.generation
    || 0 < st.observed < spec.generation
    || (st.issued.observed == 0 && st.observed == 0 && st.phase == Done && spec.flow != [] && spec.generation > 1)
  }

  predicate MustIssue(spec: Spec, st: Status) {
    st.issued.reason != ChangesIssued || st.issued.observed < spec.generation
  }

  function IssuePhase(spec: Spec, w: World, mergedDiff: Attrs, env: Env): Outcome {
    var fs0 := if ClearFires(spec, w.st) then [] else w.st.fs;
    if !env.powered then Outcome(w.(st := w.st.(phase := Broken)), [])
    else if env.pendingAttrs then Outcome(w, [])
    else
      var g := GroupDiffOf(fs0, spec.flow, w.attrs, mergedDiff, false);
      match env.verdict
      case Invalid => Outcome(w.(st := w.st.(phase := Broken)), [])
      case Unreachable => Outcome(w, [])
      case Accepted(resetRequired) =>
        var written := w.(attrs := w.attrs + g.diff);
        if !env.persisted then Outcome(written, [])
        else
          Outcome(
            written.(st := w.st.(
              fs := g.fs,
              issued := Issued(ChangesIssued, spec.generation),
              postReset := if resetRequired then ResetCond(false, ResetRequired) else ResetCond(true, NoResetRequired))),
            [Issue(resetRequired)])
  }

  function VerifyPhase(spec: Spec, w: World, mergedDiff: Attrs): Outcome {
    var g := GroupDiffOf(w.st.fs, spec.flow, w.attrs, mergedDiff, true);
    if g.changed then
      Outcome(w.(st := w.st.(fs := g.fs, issued := Issued(VerificationPending, w.st.issued.observed))), [Verify])
    else if g.diff == map[] then Outcome(w.(st := w.st.(phase := Done)), [Verify])
    else Outcome(w, [Verify])
  }

  function UpdateOutcome(spec: Spec, w: World, mergedDiff: Attrs, env: Env): Outcome {
    if MustIssue(spec, w.st) then IssuePhase(spec, w, mergedDiff, env)
    else if w.st.postReset == ResetCond(true, NoResetRequired) then VerifyPhase(spec, w, mergedDiff)
    else
      var call := ResetCall(w.st.postReset, true, env.recentReset, w.op, env.persisted);
      if call.ready then VerifyPhase(spec, w, mergedDiff)
      else
        Outcome(
          w.(st := w.st.(postReset := call.cond), op := call.op),
          if call.cond == w.st.postReset then [] else if call.cond.isTrue then [SawDone] else [Request])
  }

  /** Maintenance is skipped when the BMC already has every merged value. */
  function SkipMaintenance(spec: Spec, st: Status): Status {
    st.(fs := MarkApplied(st.fs, SortedSettingsFlowGroups(spec.flow)), phase := Done, observed := spec.generation)
  }

  function InProgressStep(spec: Spec, w: World, env: Env): Outcome {
    var mergedDiff := Diff(Merged(spec.flow), w.attrs);
    if mergedDiff == map[] then
      Outcome(w.(st := if spec.flow == [] then w.st.(phase := Done) else SkipMaintenance(spec, w.st)), [])
    else if !env.granted then Outcome(w, [])
    else
      var call := ResetCall(w.st.initialReset, false, env.recentReset, w.op, env.persisted);
      var w' := w.(st := w.st.(initialReset := call.cond), op := call.op);
      if !call.ready || call.failed then Outcome(w', []) else UpdateOutcome(spec, w', mergedDiff, env)
  }

  /** The conditions of an apply cycle are dropped. */
  function Dropped(st: Status): Status {
    st.(issued := Issued(NotIssued, 0), initialReset := UNSET, postReset := UNSET)
  }

  function AppliedStep(spec: Spec, w: World): World {
    if spec.flow != [] && ClearFires(spec, w.st) then
      w.(st := Dropped(w.st).(phase := New, fs := [], observed := spec.generation))
    else if exists item :: item in spec.flow && !IsApplied(w.st.fs, item) then w
    else if Diff(Merged(spec.flow), w.attrs) != map[] then w.(st := Dropped(w.st).(phase := New))
    else w
  }

  /** `noted` tells that the status records the current generation. A retry waits for maintenance. */
  function FailedStep(spec: Spec, w: World, env: Env): World {
    var w' := if env.noted then w.(st := w.st.(observed := spec.generation)) else w;
    match env.retry
    case StartOver =>
      if env.granted then w.(st := Dropped(w.st).(phase := WaitingForGates, fs := [], observed := spec.generation)) else w'
    case Waiting(asked) => if asked && env.granted && w'.op == NoOperation then w'.(op := GracefulRestart) else w'
    case NoRetry => if spec.flow == [] then w' else w'.(st := w'.st.(fs := FailInProgress(w.st.fs)))
  }

  /** The first InProgress entry becomes Failed. */
  function FailInProgress(fs: seq<FlowStatus>): seq<FlowStatus> {
    if fs == [] then []
    else if fs[0].state == InProgress then [fs[0].(state := Failed)] + fs[1..]
    else [fs[0]] + FailInProgress(fs[1..])
  }

  function Reconcile(spec: Spec, w: World, env: Env): Outcome {
    match w.st.phase
    case New => if env.gatesOpen then Outcome(w.(st := w.st.(phase := Progressing)), []) else Outcome(w.(st := w.st.(phase := WaitingForGates)), [])
    case WaitingForGates => if env.gatesOpen then Outcome(w.(st := w.st.(phase := Progressing)), []) else Outcome(w, [])
    case Progressing => InProgressStep(spec, w, env)
    case Done => Outcome(if env.gatesOpen then AppliedStep(spec, w) else w, [])
    case Broken => Outcome(FailedStep(spec, w, env), [])
  }

  // ---------------------------------------------------------------- the status object

  /** The status the controller mutates in place. */
  class BMCSettingsStatus {
    var phase: Phase
    var observed: nat
    var flowState: seq<FlowStatus>
    var issued: Issued
    var initialReset: ResetCond
    var postReset: ResetCond

    constructor ()
      ensures View() == Status(New, 0, [], Issued(NotIssued, 0), UNSET, UNSET)
    {
      phase, observed, flowState, issued := New, 0, [], Issued(NotIssued, 0);
      initialReset, postReset := UNSET, UNSET;
    }

    function View(): Status
      reads this
    {
      Status(phase, observed, flowState, issued, initialReset, postReset)
    }

    method IsFlowGroupApplied(item: FlowItem) returns (applied: bool)
      ensures applied == IsApplied(flowState, item)
    {
      for i := 0 to |flowState|
        invariant forall j :: 0 <= j < i ==> !SameGroup(flowState[j], item)
      {
        if SameGroup(flowState[i], item) {
          return flowState[i].state == Applied;
        }
      }
      return false;
    }

    method HasFlowGroupEntry(item: FlowItem) returns (has: bool)
      ensures has == (EntryOf(flowState, item) < |flowState|)
    {
      for i := 0 to |flowState|
        invariant forall j :: 0 <= j < i ==> !SameGroup(flowState[j], item)
      {
        if SameGroup(flowState[i], item) {
          return true;
        }
      }
      return false;
    }

    method SetFlowGroupState(item: FlowItem, state: GroupState)
      modifies this`flowState
      ensures flowState == Upsert(old(flowState), item, state)
    {
      for i := 0 to |flowState|
        invariant flowState == old(flowState)
        invariant forall j :: 0 <= j < i ==> !SameGroup(flowState[j], item)
      {
        if SameGroup(flowState[i], item) {
          flowState := flowState[i := flowState[i].(state := state)];
          return;
        }
      }
      flowState := flowState + [FlowStatus(item.name, item.priority, state)];
    }

    method MarkAllApplied(items: seq<FlowItem>)
      modifies this`flowState
      ensures flowState == MarkApplied(old(flowState), items)
    {
      for i := 0 to |items|
        invariant MarkApplied(old(flowState), items) == MarkApplied(flowState, items[i..])
      {
        SetFlowGroupState(items[i], Applied);
        assert items[i..][1..] == items[i + 1..];
      }
      assert items[|items|..] == [];
    }

    /** Marks every group that is not yet Applied, without asking the BMC, and skips maintenance. */
    method CheckSettingsFlowBeforeMaintenance(spec: Spec) returns (complete: bool)
      modifies this
      ensures complete == (spec.flow != [])
      ensures View() == if complete then SkipMaintenance(spec, old(View())) else old(View())
    {
      if spec.flow == [] {
        return false;
      }
      var sorted := SortedSettingsFlowGroups(spec.flow);
      for i := 0 to |sorted|
        invariant MarkApplied(old(flowState), sorted) == MarkApplied(flowState, sorted[i..])
        invariant View() == old(View()).(fs := flowState)
      {
        assert sorted[i..][1..] == sorted[i + 1..];
        var applied := IsFlowGroupApplied(sorted[i]);
        assert applied ==> Upsert(flowState, sorted[i], Applied) == flowState;
        if !applied {
          SetFlowGroupState(sorted[i], Applied);
        }
      }
      assert sorted[|sorted|..] == [];
      phase, observed := Done, spec.generation;
      return true;
    }

    method FlowGroupDiff(flow: seq<FlowItem>, attrs: Attrs, mergedDiff: Attrs, verifyOnly: bool)
      returns (diff: Attrs, changed: bool)
      modifies this`flowState
      ensures GroupDiff(flowState, changed, diff) == GroupDiffOf(old(flowState), flow, attrs, mergedDiff, verifyOnly)
    {
      if flow == [] {
        return mergedDiff, false;
      }
      var sorted := SortedSettingsFlowGroups(flow);
      changed := false;
      for i := 0 to |sorted|
        invariant var rest := ForwardPass(flowState, sorted[i..], attrs, verifyOnly);
                  ForwardPass(old(flowState), sorted, attrs, verifyOnly) == rest.(changed := changed || rest.changed)
      {
        var item := sorted[i];
        assert sorted[i..][1..] == sorted[i + 1..];
        var applied := IsFlowGroupApplied(item);
        if !applied {
          diff := Diff(item.settings, attrs);
          if diff == map[] {
            SetFlowGroupState(item, Applied);
            changed := true;
          } else {
            var has := HasFlowGroupEntry(item);
            if !has {
              SetFlowGroupState(item, Pending);
            }
            if !verifyOnly {
              SetFlowGroupState(item, InProgress);
            }
            return;
          }
        }
      }
      if mergedDiff == map[] {
        return map[], changed;
      }
      if !verifyOnly {
        MarkAllApplied(sorted);
      }
      return mergedDiff, true;
    }

    /** What the outside can tell: the status, the BMC with its annotation, and what happened so far. */
    ghost predicate Becomes(bmc: Bmc, before: seq<Happening>, out: Outcome)
      reads this, bmc
    {
      World(View(), bmc.attrs, bmc.op) == out.w && bmc.log == before + out.events
    }

    /** One reconcile, in whatever phase the object is. */
    method EnsureBMCSettingsMaintenanceStateTransition(spec: Spec, bmc: Bmc, env: Env)
      modifies this, bmc
      ensures Becomes(bmc, old(bmc.log), Reconcile(spec, old(World(View(), bmc.attrs, bmc.op)), env))
    {
      match phase {
        case New => phase := if env.gatesOpen then Progressing else WaitingForGates;
        case WaitingForGates => phase := if env.gatesOpen then Progressing else WaitingForGates;
        case Progressing => HandleSettingInProgressState(spec, bmc, env);
        case Done => HandleSettingAppliedState(spec, bmc, env);
        case Broken => HandleFailedState(spec, bmc, env);
      }
    }

    /** One reconcile of an object in progress. */
    method HandleSettingInProgressState(spec: Spec, bmc: Bmc, env: Env)
      modifies this, bmc
      ensures Becomes(bmc, old(bmc.log), InProgressStep(spec, old(World(View(), bmc.attrs, bmc.op)), env))
    {
      var merged := MergeSettingsFlow(spec.flow);
      var mergedDiff := Diff(merged, bmc.attrs);
      if mergedDiff == map[] {
        if spec.flow == [] {
          phase := Done;
        } else {
          var _ := CheckSettingsFlowBeforeMaintenance(spec);
        }
        return;
      }
      if !env.granted {
        return;
      }
      var call := ResetCall(initialReset, false, env.recentReset, bmc.op, env.persisted);
      initialReset, bmc.op := call.cond, call.op;
      if call.ready && !call.failed {
        UpdateSettingsAndVerify(spec, bmc, mergedDiff, env);
      }
    }

    method UpdateSettingsAndVerify(spec: Spec, bmc: Bmc, mergedDiff: Attrs, env: Env)
      modifies this, bmc
      ensures Becomes(bmc, old(bmc.log), UpdateOutcome(spec, old(World(View(), bmc.attrs, bmc.op)), mergedDiff, env))
    {
      if MustIssue(spec, View()) {
        Issue(spec, bmc, mergedDiff, env);
        return;
      }
      if postReset != ResetCond(true, NoResetRequired) {
        var call := ResetCall(postReset, true, env.recentReset, bmc.op, env.persisted);
        var moved := call.cond != postReset;
        postReset, bmc.op := call.cond, call.op;
        if !call.ready {
          if moved {
            bmc.Note(if call.cond.isTrue then SawDone else Request);
          }
          return;
        }
      }
      VerifySettings(spec, bmc, mergedDiff);
    }

    /** The last phase: compares again and advances the flow. */
    method VerifySettings(spec: Spec, bmc: Bmc, mergedDiff: Attrs)
      modifies this, bmc
      ensures Becomes(bmc, old(bmc.log), VerifyPhase(spec, old(World(View(), bmc.attrs, bmc.op)), mergedDiff))
    {
      bmc.Note(Verify);
      var persistedFlow := flowState;
      var diff, changed := FlowGroupDiff(spec.flow, bmc.attrs, mergedDiff, true);
      if changed {
        issued := Issued(VerificationPending, issued.observed);
      } else {
        flowState := persistedFlow;
        if diff == map[] {
          phase := Done;
        }
      }
    }

    method Issue(spec: Spec, bmc: Bmc, mergedDiff: Attrs, env: Env)
      modifies this, bmc
      ensures Becomes(bmc, old(bmc.log), IssuePhase(spec, old(World(View(), bmc.attrs, bmc.op)), mergedDiff, env))
    {
      var persistedFlow := flowState;
      if ClearFires(spec, View()) {
        flowState := [];
      }
      if env.powered && !env.pendingAttrs {
        var diff, _ := FlowGroupDiff(spec.flow, bmc.attrs, mergedDiff, false);
        if env.verdict.Accepted? {
          bmc.attrs := bmc.attrs + diff;
          if env.persisted {
            issued := Issued(ChangesIssued, spec.generation);
            postReset := if env.verdict.resetRequired then ResetCond(false, ResetRequired) else ResetCond(true, NoResetRequired);
            bmc.Note(Happening.Issue(env.verdict.resetRequired));
            return;
          }
        }
      }
      // Nothing but the phase is patched on the other paths: the in-memory flow state is dropped.
      flowState := persistedFlow;
      if !env.powered || (!env.pendingAttrs && env.verdict == Invalid) {
        phase := Broken;
      }
    }

    method DropConditions()
      modifies this`issued, this`initialReset, this`postReset
      ensures View() == Dropped(old(View()))
    {
      issued, initialReset, postReset := Issued(NotIssued, 0), UNSET, UNSET;
    }

    /** An applied object starts over when its spec changed or the BMC drifted. */
    method HandleSettingAppliedState(spec: Spec, bmc: Bmc, env: Env)
      modifies this
      ensures var before := old(World(View(), bmc.attrs, bmc.op));
              World(View(), bmc.attrs, bmc.op) == if env.gatesOpen then AppliedStep(spec, before) else before
    {
      if !env.gatesOpen {
        return;
      }
      if spec.flow != [] && ClearFires(spec, View()) {
        DropConditions();
        phase, flowState, observed := New, [], spec.generation;
        return;
      }
      for i := 0 to |spec.flow|
        invariant View() == old(View())
        invariant forall j :: 0 <= j < i ==> IsApplied(flowState, spec.flow[j])
      {
        var applied := IsFlowGroupApplied(spec.flow[i]);
        if !applied {
          assert spec.flow[i] in spec.flow;
          return;
        }
      }
      var merged := MergeSettingsFlow(spec.flow);
      if Diff(merged, bmc.attrs) != map[] {
        DropConditions();
        phase := New;
      }
    }

    /** A failed object is retried from scratch, or its group in progress is marked as failed. */
    method HandleFailedState(spec: Spec, bmc: Bmc, env: Env)
      modifies this, bmc`op
      ensures World(View(), bmc.attrs, bmc.op) == FailedStep(spec, old(World(View(), bmc.attrs, bmc.op)), env)
    {
      if env.retry.StartOver? && env.granted {
        DropConditions();
        phase, flowState, observed := WaitingForGates, [], spec.generation;
        return;
      }
      if env.noted {
        observed := spec.generation;
      }
      if !env.retry.NoRetry? {
        if env.retry.Waiting? && env.retry.asked && env.granted && bmc.op == NoOperation {
          bmc.op := GracefulRestart;
        }
        return;
      }
      if spec.flow != [] {
        MarkFailed();
      }
    }

    /** The first group in progress is marked as failed. */
    method MarkFailed()
      modifies this`flowState
      ensures flowState == FailInProgress(old(flowState))
    {
      for i := 0 to |flowState|
        invariant flowState == old(flowState)
        invariant FailInProgress(flowState) == flowState[..i] + FailInProgress(flowState[i..])
      {
        if flowState[i].state == InProgress {
          flowState := flowState[..i] + [flowState[i].(state := Failed)] + flowState[i + 1..];
          return;
        }
        assert flowState[i..][1..] == flowState[i + 1..];
      }
    }
  }

  /** The settings and the operation annotation of a BMC, with a record of what was done to it. */
  class Bmc {
    var attrs: Attrs
    var op: Operation
    var log: seq<Happening>

    constructor (attrs: Attrs, op: Operation)
      ensures this.attrs == attrs && this.op == op && log == []
    {
      this.attrs, this.op, this.log := attrs, op, [];
    }

    method Note(h: Happening)
      modifies this`log
      ensures log == old(log) + [h]
    {
      log := log + [h];
    }
  }
}
