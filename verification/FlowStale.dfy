/**
 A status that observed an older generation clears the flow progress at every issue. Exactly when such a
 flow still converges: the BMC then moves through finitely many states that can be written down in advance,
 and it does if and only if one of them has every merged value.
 */
module FlowStale {
  import opened Options
  import opened BmcReset
  import opened SettingsFlow
  import opened FlowOrder
  import opened FlowConvergence

  /** The status observed an older generation, which nothing changes while the object is in progress. */
  predicate Stale(spec: Spec, w: World) {
    0 < w.st.observed < spec.generation
  }

  predicate Clashes(a: FlowItem, b: FlowItem) {
    exists k :: k in a.settings && k in b.settings && a.settings[k] != b.settings[k]
  }

  /** Group `j` is the first one that wants another value for a key than a group before it. */
  ghost predicate FirstClash(items: seq<FlowItem>, j: nat) {
    j < |items| && Agree(items[..j]) && exists i :: 0 <= i < j && Clashes(items[i], items[j])
  }

  /**
   The states of the BMC: the groups before `j` one after the other, then group `j`, then the groups
   before it again.
   */
  function Visit(items: seq<FlowItem>, j: nat, attrs: Attrs, p: nat): Attrs
    requires j < |items| && p <= 2 * j + 1
  {
    if p <= j then attrs + Merged(items[..p])
    else attrs + Merged(items[..j]) + items[j].settings + Merged(items[..p - j - 1])
  }

  predicate Meets(spec: Spec, attrs: Attrs) {
    Diff(Merged(spec.flow), attrs) == map[]
  }

  predicate MeetsAt(spec: Spec, j: nat, attrs: Attrs, p: nat) {
    var sorted := SortedSettingsFlowGroups(spec.flow);
    j < |sorted| && p <= 2 * j + 1 && Meets(spec, Visit(sorted, j, attrs, p))
  }

  predicate SomeVisitMeets(spec: Spec, j: nat, attrs: Attrs) {
    exists p :: 0 <= p <= 2 * j + 1 && MeetsAt(spec, j, attrs, p)
  }

  // ---------------------------------------------------------------- overlays

  lemma MergedNext(items: seq<FlowItem>, i: nat)
    requires i < |items|
    ensures Merged(items[..i + 1]) == Merged(items[..i]) + items[i].settings
  {
    assert items[..i + 1][..i] == items[..i];
  }

  lemma OverlayKeepsMatch(s: Attrs, t: Attrs, attrs: Attrs)
    requires Diff(s, attrs) == map[] && forall k :: k in s && k in t ==> s[k] == t[k]
    ensures Diff(s, attrs + t) == map[]
  {
    forall k | k in s
      ensures k in attrs + t && (attrs + t)[k] == s[k]
    {
      assert k !in Diff(s, attrs);
    }
  }

  lemma MatchedOverlay(s: Attrs, attrs: Attrs)
    requires Diff(s, attrs) == map[]
    ensures attrs + s == attrs
  {
    forall k | k in s
      ensures k in attrs && attrs[k] == s[k]
    {
      assert k !in Diff(s, attrs);
    }
  }

  lemma OverlayInSteps(base: Attrs, m: Attrs, s: Attrs)
    ensures base + (m + s) == base + m + s
  {
  }

  /** Overlaying one more group. */
  lemma OverlayNext(items: seq<FlowItem>, base: Attrs, i: nat)
    requires i < |items|
    ensures base + Merged(items[..i + 1]) == base + Merged(items[..i]) + items[i].settings
  {
    MergedNext(items, i);
    OverlayInSteps(base, Merged(items[..i]), items[i].settings);
  }

  lemma WriteIsOverlay(s: Attrs, attrs: Attrs)
    ensures attrs + Diff(s, attrs) == attrs + s
  {
  }

  /** Agreeing groups that were overlaid in order all match. */
  lemma {:induction false} PrefixMatches(items: seq<FlowItem>, base: Attrs, i: nat, g: nat)
    requires g < i <= |items| && Agree(items[..i])
    ensures Diff(items[g].settings, base + Merged(items[..i])) == map[]
  {
    OverlayNext(items, base, i - 1);
    var before := base + Merged(items[..i - 1]);
    if g < i - 1 {
      AgreePrefix(items, i, i - 1);
      PrefixMatches(items, base, i - 1, g);
      assert items[..i][g] == items[g] && items[..i][i - 1] == items[i - 1];
      OverlayKeepsMatch(items[g].settings, items[i - 1].settings, before);
    }
  }

  /** Groups that match already change nothing when they are overlaid. */
  lemma {:induction false} SkipMatched(items: seq<FlowItem>, base: Attrs, i: nat, m: nat)
    requires i <= m <= |items|
    requires forall g :: i <= g < m ==> Diff(items[g].settings, base + Merged(items[..i])) == map[]
    ensures base + Merged(items[..m]) == base + Merged(items[..i])
  {
    if i < m {
      SkipMatched(items, base, i, m - 1);
      OverlayNext(items, base, m - 1);
      MatchedOverlay(items[m - 1].settings, base + Merged(items[..i]));
    }
  }

  lemma ClashNeverMatches(items: seq<FlowItem>, j: nat, attrs: Attrs)
    requires FirstClash(items, j)
    ensures exists g :: 0 <= g <= j && Diff(items[g].settings, attrs) != map[]
  {
    var i :| 0 <= i < j && Clashes(items[i], items[j]);
    var k :| k in items[i].settings && k in items[j].settings && items[i].settings[k] != items[j].settings[k];
    assert k in Diff(items[i].settings, attrs) || k in Diff(items[j].settings, attrs);
  }

  // ---------------------------------------------------------------- one cycle

  /** The first group the BMC does not match is never after the clash. */
  lemma OpenBeforeClash(items: seq<FlowItem>, j: nat, attrs: Attrs)
    requires FirstClash(items, j)
    ensures FirstOpen(items, attrs, 0) <= j
  {
    ClashNeverMatches(items, j, attrs);
  }

  function Base(items: seq<FlowItem>, j: nat, attrs: Attrs, p: nat): Attrs
    requires j < |items|
  {
    if p <= j then attrs else attrs + Merged(items[..j]) + items[j].settings
  }

  function Overlaid(j: nat, p: nat): nat
    requires p <= 2 * j + 1
  {
    if p <= j then p else p - j - 1
  }

  lemma VisitIsOverlay(items: seq<FlowItem>, j: nat, attrs: Attrs, p: nat)
    requires j < |items| && p <= 2 * j + 1
    ensures Visit(items, j, attrs, p) == Base(items, j, attrs, p) + Merged(items[..Overlaid(j, p)])
  {
  }

  lemma AgreePrefix(items: seq<FlowItem>, j: nat, i: nat)
    requires i <= j <= |items| && Agree(items[..j])
    ensures Agree(items[..i])
  {
    assert forall x :: 0 <= x < i ==> items[..i][x] == items[..j][x];
  }

  /** The groups overlaid last are skipped, and so is every further one that matches. */
  lemma OpenIsLater(items: seq<FlowItem>, j: nat, attrs: Attrs, p: nat)
    requires FirstClash(items, j) && p <= 2 * j + 1
    ensures var m := FirstOpen(items, Visit(items, j, attrs, p), 0);
            Overlaid(j, p) <= m <= j && Base(items, j, attrs, p) + Merged(items[..m]) == Visit(items, j, attrs, p)
  {
    var here := Visit(items, j, attrs, p);
    var m, i := FirstOpen(items, here, 0), Overlaid(j, p);
    VisitIsOverlay(items, j, attrs, p);
    OpenBeforeClash(items, j, here);
    AgreePrefix(items, j, i);
    if m < i {
      PrefixMatches(items, Base(items, j, attrs, p), i, m);
    }
    SkipMatched(items, Base(items, j, attrs, p), i, m);
  }

  /** Where the BMC is after the first open group was written. */
  function NextVisit(j: nat, p: nat, m: nat): (q: nat)
    requires p <= 2 * j + 1 && Overlaid(j, p) <= m <= j
    ensures q <= 2 * j + 1
    ensures m < j || p <= j ==> q > p
  {
    if m == j then j + 1 else if p <= j then m + 1 else m + j + 2
  }

  lemma Absorb(attrs: Attrs, m: Attrs, s: Attrs)
    ensures attrs + m + s + m + s == attrs + m + s
  {
  }

  lemma WriteMovesOn(items: seq<FlowItem>, j: nat, attrs: Attrs, p: nat)
    requires FirstClash(items, j) && p <= 2 * j + 1
    ensures var here := Visit(items, j, attrs, p);
            var m := FirstOpen(items, here, 0);
            && Overlaid(j, p) <= m <= j
            && here + items[m].settings == Visit(items, j, attrs, NextVisit(j, p, m))
  {
    OpenIsLater(items, j, attrs, p);
    OneMoreWritten(items, j, attrs, p, FirstOpen(items, Visit(items, j, attrs, p), 0));
  }

  lemma OneMoreWritten(items: seq<FlowItem>, j: nat, attrs: Attrs, p: nat, m: nat)
    requires j < |items| && p <= 2 * j + 1 && Overlaid(j, p) <= m <= j
    ensures Base(items, j, attrs, p) + Merged(items[..m]) + items[m].settings == Visit(items, j, attrs, NextVisit(j, p, m))
  {
    if m < j {
      VisitIsOverlay(items, j, attrs, NextVisit(j, p, m));
      OverlayNext(items, Base(items, j, attrs, p), m);
    } else {
      SecondRound(items, j, attrs, p);
    }
  }

  /** Writing the clashing group starts the second round, and starts it again at its end. */
  lemma SecondRound(items: seq<FlowItem>, j: nat, attrs: Attrs, p: nat)
    requires j < |items| && p <= 2 * j + 1
    ensures Base(items, j, attrs, p) + Merged(items[..j]) + items[j].settings == Visit(items, j, attrs, j + 1)
  {
    Absorb(attrs, Merged(items[..j]), items[j].settings);
    var base := attrs + Merged(items[..j]) + items[j].settings;
    NoOverlay(base);
    assert items[..0] == [];
  }

  lemma NoOverlay(base: Attrs)
    ensures base + Merged([]) == base
  {
    assert Merged([]) == map[];
  }

  /** The positions passed over show the same state. */
  lemma PassedOver(items: seq<FlowItem>, j: nat, attrs: Attrs, p: nat, q: nat)
    requires FirstClash(items, j) && p <= q <= 2 * j + 1 && (p <= j <==> q <= j)
    requires Overlaid(j, q) <= FirstOpen(items, Visit(items, j, attrs, p), 0)
    ensures Visit(items, j, attrs, q) == Visit(items, j, attrs, p)
  {
    OpenIsLater(items, j, attrs, p);
    VisitIsOverlay(items, j, attrs, p);
    VisitIsOverlay(items, j, attrs, q);
    SkipMatched(items, Base(items, j, attrs, p), Overlaid(j, p), Overlaid(j, q));
  }

  /** The object is at position `p` of the walk that started at `attrs`. */
  ghost predicate Walks(spec: Spec, w: World, j: nat, attrs: Attrs, p: nat) {
    var sorted := SortedSettingsFlowGroups(spec.flow);
    && AtStart(spec, w) && Stale(spec, w) && FirstClash(sorted, j) && p <= 2 * j + 1
    && w.attrs == Visit(sorted, j, attrs, p)
  }

  /** One cycle reaches every merged value or moves to the next position. */
  lemma CycleWalks(spec: Spec, w: World, resetRequired: bool, j: nat, attrs: Attrs, p: nat)
    requires Walks(spec, w, j, attrs, p)
    ensures var sorted := SortedSettingsFlowGroups(spec.flow);
            var w', m := Cycle(spec, w, resetRequired), FirstOpen(sorted, w.attrs, 0);
            && Overlaid(j, p) <= m <= j
            && var q := NextVisit(j, p, m);
            && (if MeetsAt(spec, j, attrs, p) || MeetsAt(spec, j, attrs, q) then Reached(spec, w') else Walks(spec, w', j, attrs, q))
  {
    var sorted := SortedSettingsFlowGroups(spec.flow);
    CycleIssuesNextGroup(spec, w, resetRequired);
    var m := FirstOpen(sorted, w.attrs, 0);
    WriteMovesOn(sorted, j, attrs, p);
    WriteIsOverlay(sorted[m].settings, w.attrs);
    assert NextGroup(spec, w) == m;
  }

  // ---------------------------------------------------------------- never, or in time

  /** Without a state that has every merged value, no number of cycles ends the walk. */
  lemma {:induction false} WalksForEver(spec: Spec, w: World, resets: seq<bool>, j: nat, attrs: Attrs, p: nat) returns (q: nat)
    requires Walks(spec, w, j, attrs, p) && !SomeVisitMeets(spec, j, attrs)
    ensures Walks(spec, Cycles(spec, w, resets), j, attrs, q)
    decreases |resets|
  {
    q := p;
    if resets != [] {
      CycleWalks(spec, w, resets[0], j, attrs, p);
      var m := FirstOpen(SortedSettingsFlowGroups(spec.flow), w.attrs, 0);
      q := WalksForEver(spec, Cycle(spec, w, resets[0]), resets[1..], j, attrs, NextVisit(j, p, m));
    }
  }

  /** The positions up to `p` do not have every merged value. */
  predicate UnmetBefore(spec: Spec, j: nat, attrs: Attrs, p: nat) {
    forall q :: 0 <= q < p ==> !MeetsAt(spec, j, attrs, q)
  }

  lemma UnmetPassedOver(spec: Spec, j: nat, attrs: Attrs, p: nat, q: nat)
    requires var sorted := SortedSettingsFlowGroups(spec.flow);
             && FirstClash(sorted, j) && p <= q <= 2 * j + 1 && (p <= j <==> q <= j)
             && Overlaid(j, q) <= FirstOpen(sorted, Visit(sorted, j, attrs, p), 0)
    requires !MeetsAt(spec, j, attrs, p)
    ensures !MeetsAt(spec, j, attrs, q)
  {
    PassedOver(SortedSettingsFlowGroups(spec.flow), j, attrs, p, q);
  }

  lemma UnmetSkips(spec: Spec, w: World, j: nat, attrs: Attrs, p: nat, m: nat)
    requires Walks(spec, w, j, attrs, p) && UnmetBefore(spec, j, attrs, p) && !MeetsAt(spec, j, attrs, p)
    requires m == FirstOpen(SortedSettingsFlowGroups(spec.flow), w.attrs, 0) && Overlaid(j, p) <= m <= j
    ensures UnmetBefore(spec, j, attrs, if m == j && p > j then 2 * j + 2 else NextVisit(j, p, m))
  {
    var end := if m == j && p > j then 2 * j + 2 else NextVisit(j, p, m);
    forall q | p < q < end
      ensures !MeetsAt(spec, j, attrs, q)
    {
      UnmetPassedOver(spec, j, attrs, p, q);
    }
  }

  /** A state that has every merged value is reached after at most two rounds. */
  lemma {:induction false} WalkEnds(spec: Spec, w: World, resets: seq<bool>, j: nat, attrs: Attrs, p: nat)
    requires Walks(spec, w, j, attrs, p) && UnmetBefore(spec, j, attrs, p) && SomeVisitMeets(spec, j, attrs)
    requires |resets| + p >= 2 * j + 2
    ensures Reached(spec, Cycles(spec, w, resets))
    decreases |resets|
  {
    var next := Cycle(spec, w, resets[0]);
    CycleWalks(spec, w, resets[0], j, attrs, p);
    if Reached(spec, next) {
      ReachedStays(spec, next, resets[1..]);
    } else {
      var m := FirstOpen(SortedSettingsFlowGroups(spec.flow), w.attrs, 0);
      UnmetSkips(spec, w, j, attrs, p, m);
      WalkEnds(spec, next, resets[1..], j, attrs, NextVisit(j, p, m));
    }
  }

  lemma WalkStarts(spec: Spec, w: World, j: nat)
    requires AtStart(spec, w) && Stale(spec, w) && FirstClash(SortedSettingsFlowGroups(spec.flow), j)
    ensures Walks(spec, w, j, w.attrs, 0)
  {
    var sorted := SortedSettingsFlowGroups(spec.flow);
    assert Merged(sorted[..0]) == map[];
    assert w.attrs + map[] == w.attrs;
  }

  /**
   With a stale generation and a first clash at group `j`, the flow converges if and only if one of the
   2 * j + 2 states that can be written down in advance has every merged value.
   */
  lemma StaleFlowConvergesIff(spec: Spec, w: World, resets: seq<bool>, j: nat)
    requires AtStart(spec, w) && Stale(spec, w) && FirstClash(SortedSettingsFlowGroups(spec.flow), j)
    requires |resets| >= 2 * j + 2
    ensures Reached(spec, Cycles(spec, w, resets)) <==> SomeVisitMeets(spec, j, w.attrs)
  {
    WalkStarts(spec, w, j);
    if SomeVisitMeets(spec, j, w.attrs) {
      WalkEnds(spec, w, resets, j, w.attrs, 0);
    } else {
      var q := WalksForEver(spec, w, resets, j, w.attrs, 0);
    }
  }

  /** Otherwise it stays in progress for ever, however many cycles there are. */
  lemma StaleFlowNeverConverges(spec: Spec, w: World, resets: seq<bool>, j: nat)
    requires AtStart(spec, w) && Stale(spec, w) && FirstClash(SortedSettingsFlowGroups(spec.flow), j)
    requires !SomeVisitMeets(spec, j, w.attrs)
    ensures var end := Cycles(spec, w, resets); AtStart(spec, end) && !MergedMatches(spec, end)
  {
    WalkStarts(spec, w, j);
    var q := WalksForEver(spec, w, resets, j, w.attrs, 0);
    assert !MeetsAt(spec, j, w.attrs, q);
  }

  // ---------------------------------------------------------------- all flows

  /** When the groups before the last one agree and not all do, one of them clashes with the last. */
  lemma LastClashes(items: seq<FlowItem>)
    requires items != [] && Agree(items[..|items| - 1]) && !Agree(items)
    ensures FirstClash(items, |items| - 1)
  {
    var last := |items| - 1;
    if !exists i :: 0 <= i < last && Clashes(items[i], items[last]) {
      forall i, j, k | 0 <= i < |items| && 0 <= j < |items| && k in items[i].settings && k in items[j].settings
        ensures items[i].settings[k] == items[j].settings[k]
      {
        assert i < last ==> items[..last][i] == items[i];
        assert j < last ==> items[..last][j] == items[j];
      }
    }
  }

  lemma {:induction false} SomeClash(items: seq<FlowItem>) returns (j: nat)
    requires !Agree(items)
    ensures FirstClash(items, j)
  {
    var last := |items| - 1;
    if !Agree(items[..last]) {
      j := SomeClash(items[..last]);
      assert items[..last][..j] == items[..j];
      var i :| 0 <= i < j && Clashes(items[..last][i], items[..last][j]);
      assert Clashes(items[i], items[j]);
    } else {
      j := last;
      LastClashes(items);
    }
  }

  lemma {:induction false} UnmatchedBound(items: seq<FlowItem>, attrs: Attrs)
    ensures Unmatched(items, attrs) <= |items|
  {
    if items != [] {
      UnmatchedBound(items[1..], attrs);
    }
  }

  /** A generation that is noticed once clears the progress once and costs one more cycle. */
  lemma NoticedFlowConverges(spec: Spec, w: World, resets: seq<bool>)
    requires AtStart(spec, w) && !Stale(spec, w) && |resets| >= |spec.flow| + 2
    ensures Reached(spec, Cycles(spec, w, resets))
  {
    if ClearFires(spec, w.st) {
      var next := Cycle(spec, w, resets[0]);
      CycleIssuesNextGroup(spec, w, resets[0]);
      if Reached(spec, next) {
        ReachedStays(spec, next, resets[1..]);
      } else {
        FlowConverges(spec, next, resets[1..]);
      }
    } else {
      FlowConverges(spec, w, resets);
    }
  }

  ghost predicate SomeClashMeets(spec: Spec, attrs: Attrs) {
    exists j :: FirstClash(SortedSettingsFlowGroups(spec.flow), j) && SomeVisitMeets(spec, j, attrs)
  }

  lemma OneFirstClash(items: seq<FlowItem>, i: nat, j: nat)
    requires FirstClash(items, i) && FirstClash(items, j)
    ensures i == j
  {
    NoClashBefore(items, i, j);
    NoClashBefore(items, j, i);
  }

  lemma NoClashBefore(items: seq<FlowItem>, i: nat, j: nat)
    requires FirstClash(items, i) && j <= |items| && Agree(items[..j])
    ensures j <= i
  {
    var a :| 0 <= a < i && Clashes(items[a], items[i]);
    AgreeAt(items, j, a, i);
  }

  lemma AgreeAt(items: seq<FlowItem>, j: nat, a: nat, b: nat)
    requires j <= |items| && Agree(items[..j])
    ensures a < j && b < j ==> !Clashes(items[a], items[b])
  {
    if a < j && b < j {
      assert items[..j][a] == items[a] && items[..j][b] == items[b];
    }
  }

  lemma SortedDisagrees(flow: seq<FlowItem>)
    requires Agree(SortedSettingsFlowGroups(flow))
    ensures Agree(flow)
  {
    SortedGroups(flow, 0);
    var sorted := SortedSettingsFlowGroups(flow);
    forall i | 0 <= i < |flow|
      ensures flow[i] in sorted
    {
      assert flow[i] in multiset(flow);
    }
  }

  /**
   Every flow, on a BMC that stores what it is given: it converges if and only if the generation is not
   stale, or its groups agree, or one of the states before and around its first clash has every merged value.
   */
  lemma FlowConvergesIff(spec: Spec, w: World, resets: seq<bool>)
    requires AtStart(spec, w) && |resets| >= 2 * |spec.flow| + 2
    ensures Reached(spec, Cycles(spec, w, resets)) <==> !Stale(spec, w) || Agree(spec.flow) || SomeClashMeets(spec, w.attrs)
  {
    var sorted := SortedSettingsFlowGroups(spec.flow);
    SameLength(spec.flow);
    if !Stale(spec, w) {
      NoticedFlowConverges(spec, w, resets);
    } else if Agree(spec.flow) {
      UnmatchedBound(sorted, w.attrs);
      AgreeingFlowConverges(spec, w, resets);
    } else {
      if Agree(sorted) {
        SortedDisagrees(spec.flow);
      }
      var j := SomeClash(sorted);
      StaleFlowConvergesIff(spec, w, resets, j);
      if SomeClashMeets(spec, w.attrs) {
        var i :| FirstClash(sorted, i) && SomeVisitMeets(spec, i, w.attrs);
        OneFirstClash(sorted, i, j);
      }
    }
  }

  // ---------------------------------------------------------------- from a new object

  /** Not in progress yet: no reset asked for and nothing issued for this generation. */
  predicate Unstarted(spec: Spec, w: World) {
    && w.st.phase in {New, WaitingForGates} && MustIssue(spec, w.st) && w.op == NoOperation
    && !w.st.initialReset.isTrue && w.st.initialReset.reason != ResetIssued
    && Distinct(spec.flow) && InOrder(w.st.fs, SortedSettingsFlowGroups(spec.flow))
  }

  /** Reconciles that come while the stabilising reset is still pending. */
  function Wait(spec: Spec, w: World, waits: nat): World {
    if waits == 0 then w else Then(spec, Wait(spec, w, waits - 1), true)
  }

  /** Gates, the stabilising reset with any number of reconciles while it is pending, and the reconcile that sees it done. */
  function StartUp(spec: Spec, w: World, waits: nat): World {
    Then(spec, FinishReset(Wait(spec, Then(spec, Then(spec, w, true), true), waits)), true)
  }

  function Asking(w: World): World {
    w.(st := w.st.(phase := Progressing, initialReset := ResetCond(false, ResetIssued)), op := GracefulRestart)
  }

  lemma {:induction false} WaitChangesNothing(spec: Spec, w: World, waits: nat)
    requires !MergedMatches(spec, w)
    ensures Wait(spec, Asking(w), waits) == Asking(w)
  {
    if waits > 0 {
      WaitChangesNothing(spec, w, waits - 1);
      assert Diff(Merged(spec.flow), Asking(w).attrs) != map[];
    }
  }

  lemma {:induction false} WaitWhenDone(spec: Spec, w: World, waits: nat)
    requires w.st.phase == Done
    ensures Wait(spec, w, waits) == w
  {
    if waits > 0 {
      WaitWhenDone(spec, w, waits - 1);
    }
  }

  lemma StartUpStarts(spec: Spec, w: World, waits: nat)
    requires Unstarted(spec, w)
    ensures var w' := StartUp(spec, w, waits);
            if MergedMatches(spec, w) then Reached(spec, w')
            else w' == w.(st := w.st.(phase := Progressing, initialReset := ResetCond(true, ResetIssued)))
  {
    var one := w.(st := w.st.(phase := Progressing));
    assert Then(spec, w, true) == one;
    if MergedMatches(spec, w) {
      AppliedIffMergedMatches(spec, one, Calm(true));
      MatchMeansValues(spec, Then(spec, one, true));
      WaitWhenDone(spec, Then(spec, one, true), waits);
    } else {
      assert Diff(Merged(spec.flow), one.attrs) != map[];
      assert Then(spec, one, true) == Asking(w);
      WaitChangesNothing(spec, w, waits);
    }
  }

  /** The same condition decides for an object that has not started, however long its first reset takes. */
  lemma NewObjectConvergesIff(spec: Spec, w: World, waits: nat, resets: seq<bool>)
    requires Unstarted(spec, w) && |resets| >= 2 * |spec.flow| + 2
    ensures Reached(spec, Cycles(spec, StartUp(spec, w, waits), resets))
            <==> !Stale(spec, w) || Agree(spec.flow) || SomeClashMeets(spec, w.attrs)
  {
    var started := StartUp(spec, w, waits);
    StartUpStarts(spec, w, waits);
    if MergedMatches(spec, w) {
      ReachedStays(spec, started, resets);
      if !Agree(spec.flow) {
        MetAtOnce(spec, w.attrs);
      }
    } else {
      FlowConvergesIff(spec, started, resets);
    }
  }

  lemma MetAtOnce(spec: Spec, attrs: Attrs)
    requires Meets(spec, attrs) && !Agree(spec.flow)
    ensures SomeClashMeets(spec, attrs)
  {
    var sorted := SortedSettingsFlowGroups(spec.flow);
    if Agree(sorted) {
      SortedDisagrees(spec.flow);
    }
    var j := SomeClash(sorted);
    NoOverlay(attrs);
    assert sorted[..0] == [];
    assert MeetsAt(spec, j, attrs, 0);
  }

  // ---------------------------------------------------------------- which flows those are

  lemma {:induction false} MergedKeys(items: seq<FlowItem>, k: string)
    requires forall g :: 0 <= g < |items| ==> k !in items[g].settings
    ensures k !in Merged(items)
  {
    if items != [] {
      MergedKeys(items[..|items| - 1], k);
    }
  }

  /** A merged value that only groups after the clash set, and that is missing at the start, is never written. */
  lemma LaterGroupsAreNeverWritten(spec: Spec, w: World, resets: seq<bool>, j: nat, k: string)
    requires AtStart(spec, w) && Stale(spec, w) && FirstClash(SortedSettingsFlowGroups(spec.flow), j)
    requires forall g :: 0 <= g <= j ==> k !in SortedSettingsFlowGroups(spec.flow)[g].settings
    requires k in Merged(spec.flow) && !(k in w.attrs && w.attrs[k] == Merged(spec.flow)[k])
    ensures var end := Cycles(spec, w, resets); end.st.phase == Progressing && !(k in end.attrs && end.attrs[k] == Merged(spec.flow)[k])
  {
    var sorted := SortedSettingsFlowGroups(spec.flow);
    forall p | 0 <= p <= 2 * j + 1
      ensures !MeetsAt(spec, j, w.attrs, p)
      ensures var here := Visit(sorted, j, w.attrs, p); !(k in here && here[k] == Merged(spec.flow)[k])
    {
      VisitLeaves(sorted, j, w.attrs, p, k);
      assert k in Diff(Merged(spec.flow), Visit(sorted, j, w.attrs, p));
    }
    WalkStarts(spec, w, j);
    var q := WalksForEver(spec, w, resets, j, w.attrs, 0);
  }

  lemma VisitLeaves(items: seq<FlowItem>, j: nat, attrs: Attrs, p: nat, k: string)
    requires j < |items| && p <= 2 * j + 1 && forall g :: 0 <= g <= j ==> k !in items[g].settings
    ensures var here := Visit(items, j, attrs, p); (k in here <==> k in attrs) && (k in here ==> here[k] == attrs[k])
  {
    MergedKeys(items[..Overlaid(j, p)], k);
    MergedKeys(items[..j], k);
  }

  /** A flow in priority order whose last group is the first to clash converges all the same. */
  lemma ClashOfLastGroupConverges(spec: Spec, attrs: Attrs)
    requires spec.flow != [] && SortedSettingsFlowGroups(spec.flow) == spec.flow && FirstClash(spec.flow, |spec.flow| - 1)
    ensures SomeClashMeets(spec, attrs)
  {
    var j := |spec.flow| - 1;
    OverlayNext(spec.flow, attrs, j);
    assert spec.flow[..j + 1] == spec.flow;
    SecondRound(spec.flow, j, attrs, 0);
    OverlayMeets(spec, attrs);
    assert MeetsAt(spec, j, attrs, j + 1);
  }

  lemma OverlayMeets(spec: Spec, attrs: Attrs)
    ensures Meets(spec, attrs + Merged(spec.flow))
  {
  }

  /** Two groups that clash with a third one behind them, which the controller never gets to. */
  ghost predicate Blocked(flow: seq<FlowItem>, key: string, value: string) {
    && |flow| == 3 && SortedSettingsFlowGroups(flow) == flow && FirstClash(flow, 1)
    && key !in flow[0].settings && key !in flow[1].settings && key in flow[2].settings && flow[2].settings[key] == value
  }

  lemma BlockedVisit(spec: Spec, attrs: Attrs, key: string, value: string, p: nat)
    requires Blocked(spec.flow, key, value) && !(key in attrs && attrs[key] == value)
    ensures !MeetsAt(spec, 1, attrs, p)
  {
    var flow := spec.flow;
    MergedNext(flow, 2);
    assert flow[..3] == flow;
    if p <= 3 {
      VisitLeaves(flow, 1, attrs, p, key);
      assert key in Diff(Merged(flow), Visit(flow, 1, attrs, p));
    }
  }

  lemma BlockedIsNeverMet(spec: Spec, attrs: Attrs, key: string, value: string)
    requires Blocked(spec.flow, key, value) && !(key in attrs && attrs[key] == value)
    ensures !SomeClashMeets(spec, attrs)
  {
    forall p | 0 <= p <= 3
      ensures !MeetsAt(spec, 1, attrs, p)
    {
      BlockedVisit(spec, attrs, key, value, p);
    }
    forall j | FirstClash(spec.flow, j)
      ensures j == 1
    {
      OneFirstClash(spec.flow, 1, j);
    }
  }

  lemma SortedThree(a: FlowItem, b: FlowItem, c: FlowItem)
    requires a.priority <= b.priority <= c.priority
    ensures SortedSettingsFlowGroups([a, b, c]) == [a, b, c]
  {
    var flow := [a, b, c];
    assert flow[1..] == [b, c] && flow[1..][1..] == [c] && flow[1..][1..][1..] == [];
    assert SortedSettingsFlowGroups([c]) == [c];
    assert SortedSettingsFlowGroups([b, c]) == [b, c];
  }

  lemma BlockedFlow() returns (flow: seq<FlowItem>)
    ensures Blocked(flow, "b", "1") && Distinct(flow) && !Agree(flow)
  {
    var first, second := FlowItem("first", 1, map["a" := "1"]), FlowItem("second", 2, map["a" := "2"]);
    var third := FlowItem("third", 3, map["b" := "1"]);
    flow := [first, second, third];
    SortedThree(first, second, third);
    assert Clashes(first, second) by {
      assert "a" in first.settings && "a" in second.settings;
    }
    assert flow[..1] == [first];
    assert flow[0].settings["a"] != flow[1].settings["a"];
  }

  /** Such a flow exists, and with it a status that never converges. */
  lemma StaleFlowExists() returns (spec: Spec, w: World)
    ensures AtStart(spec, w) && Stale(spec, w) && !Agree(spec.flow) && !SomeClashMeets(spec, w.attrs)
  {
    var flow := BlockedFlow();
    spec := Spec(flow, 2);
    w := World(Status(Progressing, 1, [], Issued(NotIssued, 0), ResetCond(true, ResetIssued), UNSET), map[], NoOperation);
    BlockedIsNeverMet(spec, w.attrs, "b", "1");
  }
}
