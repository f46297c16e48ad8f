/**
 How far the guarantees of the rotation reach: pruning with an older read of the user and the BMC, and
 the number of rejected tests when reconciles are cut off.
 */
module RotationLimits {
  import opened Options
  import opened Rotation
  import opened RotationSafety

  // ---------------------------------------------------------------- pruning with an older read

  /** What pruning sees when it read the user and the BMC before the rotations and the secrets. */
  function LateView(early: State, late: State, u: nat): State
    requires u < |early.users| && u < |late.users|
  {
    late.(users := late.users[u := early.users[u]], bmcRef := early.bmcRef)
  }

  function LatePruned(early: State, late: State, u: nat, refused: set<nat>): State
    requires u < |early.users| && u < |late.users|
  {
    late.(secrets := PrunedSecrets(LateView(early, late, u), u, refused))
  }

  function FinishSteps(r: nat): seq<Step> {
    [MoveSpec(r), MoveEffective(r), MoveBmc(r), Succeed(r)]
  }

  /** The rotation passes its test and finishes. */
  function Finished(s: State, r: nat): State {
    After(After(After(After(s, MoveSpec(r)), MoveEffective(r)), MoveBmc(r)), Succeed(r))
  }

  lemma RunTwo(s: State, a: Step, b: Step)
    ensures Run(s, [a, b]) == After(After(s, a), b)
  {
    assert [a, b][..1] == [a] && [a][..0] == [];
    assert Run(s, [a]) == After(Run(s, []), a);
  }

  lemma RunFour(s: State, a: Step, b: Step, c: Step, d: Step)
    ensures Run(s, [a, b, c, d]) == After(After(After(After(s, a), b), c), d)
  {
    RunTwo(s, a, b);
    assert [a, b, c, d][..3] == [a, b, c] && [a, b, c][..2] == [a, b];
    assert Run(s, [a, b, c]) == After(Run(s, [a, b]), c);
  }

  lemma FinishMoves(s: State, r: nat)
    requires Holds(s, r) && s.rots[r].at == Accepted
    ensures var s', rot, x := Finished(s, r), s.rots[r], s.rots[r].newRef.value;
            && s'.bmcRef == x && s'.secrets == s.secrets
            && s'.users == s.users[rot.user := s.users[rot.user].(spec := Some(x), effective := Some(x))]
            && s'.rots == s.rots[r := rot.(phase := Succeeded, at := Idle)]
  {
  }

  /**
   When the rotation finishes between the two reads, pruning deletes the secret that has just become
   the effective one and the one of the BMC.
   */
  lemma LateReadDeletesLiveSecret(s: State, r: nat, refused: set<nat>)
    requires Good(s) && Holds(s, r) && s.rots[r].at == Accepted && Owned(s, s.rots[r].user, s.rots[r].newRef.value)
    requires var u, x := s.rots[r].user, s.rots[r].newRef.value;
             && Some(x) !in {s.users[u].spec, s.users[u].effective, s.users[u].bootstrap} && s.bmcRef != x
             && !s.secrets[x].breakGlass && s.secrets[x].rotation == Some(r) && x !in refused
    ensures var late := Run(s, FinishSteps(r));
            var u, x := s.rots[r].user, s.rots[r].newRef.value;
            && |late.users| == |s.users| && |late.secrets| == |s.secrets|
            && var pruned := LatePruned(s, late, u, refused);
            && pruned.users[u].effective == Some(x) && pruned.bmcRef == x
            && !pruned.secrets[x].live && !NothingDangles(pruned)
  {
    RunFour(s, MoveSpec(r), MoveEffective(r), MoveBmc(r), Succeed(r));
    FinishMoves(s, r);
    assert Local(s, r);
    var late := Finished(s, r);
    var u, x := s.rots[r].user, s.rots[r].newRef.value;
    var view := LateView(s, late, u);
    forall q | 0 <= q < |view.rots| && view.rots[q].user == u
      ensures !Unfinished(view.rots[q])
    {
      assert q != r ==> view.rots[q] == s.rots[q];
    }
    assert !Protected(view, u, x);
    assert Prunable(view, u, x);
  }

  /** A rotation of the user that was not finished at the first read. */
  predicate New(early: State, late: State, u: nat, q: nat) {
    q < |late.rots| && late.rots[q].user == u && (q < |early.rots| ==> Unfinished(early.rots[q]))
  }

  /** A reference of the user as it was at the first read, or the secret of a rotation not finished then. */
  predicate Covered(early: State, late: State, u: nat, ref: Option<nat>)
    requires u < |early.users|
  {
    || ref in {early.users[u].spec, early.users[u].effective, early.users[u].bootstrap, None}
    || exists q :: 0 <= q < |late.rots| && New(early, late, u, q) && late.rots[q].newRef == ref
  }

  predicate BmcCovered(early: State, late: State, u: nat)
    requires u < |early.users|
  {
    || late.bmcRef == early.bmcRef
    || (late.bmcRef < |late.secrets| && late.secrets[late.bmcRef].owner != Some(u))
    || Covered(early, late, u, Some(late.bmcRef))
  }

  predicate AllCovered(early: State, late: State, u: nat)
    requires u < |early.users|
  {
    && u < |late.users|
    && Covered(early, late, u, late.users[u].spec)
    && Covered(early, late, u, late.users[u].effective)
    && Covered(early, late, u, late.users[u].bootstrap)
    && BmcCovered(early, late, u)
  }

  /** Nobody but rotations changes the references of the user. */
  predicate LeavesToRotations(step: Step, u: nat) {
    (step.Edit? || step.PatchEffective? || step.PatchBmc? ==> step.u != u)
  }

  lemma CoverageStays(early: State, s: State, step: Step, u: nat, ref: Option<nat>)
    requires Good(s) && Enabled(s, step) && u < |early.users| && Covered(early, s, u, ref)
    ensures Covered(early, Next(s, step), u, ref)
  {
    if ref !in {early.users[u].spec, early.users[u].effective, early.users[u].bootstrap, None} {
      var q :| 0 <= q < |s.rots| && New(early, s, u, q) && s.rots[q].newRef == ref;
      StepKeepsRotation(s, step, q);
      assert New(early, Next(s, step), u, q);
    }
  }

  /** What a rotation of the user moves references to. */
  lemma MoveIsCovered(early: State, s: State, step: Step, u: nat)
    requires Good(s) && Enabled(s, step) && u < |early.users| && StaysFinished(early, s)
    requires (step.MoveSpec? || step.MoveEffective? || step.MoveBmc?) && s.rots[step.r].user == u
    ensures Covered(early, Next(s, step), u, s.rots[step.r].newRef)
  {
    assert Local(s, step.r);
    var s' := Next(s, step);
    assert New(early, s', u, step.r) && s'.rots[step.r].newRef == s.rots[step.r].newRef;
  }

  predicate StaysFinished(early: State, s: State) {
    forall q :: 0 <= q < |s.rots| && q < |early.rots| && !Unfinished(early.rots[q]) ==> !Unfinished(s.rots[q])
  }

  lemma StepKeepsUserCovered(early: State, s: State, step: Step, u: nat)
    requires Good(s) && Enabled(s, step) && u < |early.users| && AllCovered(early, s, u) && LeavesToRotations(step, u)
    requires StaysFinished(early, s)
    ensures var s' := Next(s, step);
            && u < |s'.users| && Covered(early, s', u, s'.users[u].spec)
            && Covered(early, s', u, s'.users[u].effective) && Covered(early, s', u, s'.users[u].bootstrap)
  {
    CoverageStays(early, s, step, u, s.users[u].spec);
    CoverageStays(early, s, step, u, s.users[u].effective);
    CoverageStays(early, s, step, u, s.users[u].bootstrap);
    if (step.MoveSpec? || step.MoveEffective?) && s.rots[step.r].user == u {
      MoveIsCovered(early, s, step, u);
    }
  }

  /** Nothing changes the owner of a secret, and only two steps write the reference of the BMC. */
  lemma OwnersStay(s: State, step: Step)
    requires Enabled(s, step)
    ensures var s' := Next(s, step);
            && |s.secrets| <= |s'.secrets| && (forall x :: 0 <= x < |s.secrets| ==> s'.secrets[x].owner == s.secrets[x].owner)
            && (!step.MoveBmc? && !step.PatchBmc? ==> s'.bmcRef == s.bmcRef)
  {
  }

  lemma StepKeepsBmcCovered(early: State, s: State, step: Step, u: nat)
    requires Good(s) && Enabled(s, step) && u < |early.users| && AllCovered(early, s, u) && LeavesToRotations(step, u)
    requires StaysFinished(early, s)
    ensures BmcCovered(early, Next(s, step), u)
  {
    if Covered(early, s, u, Some(s.bmcRef)) {
      CoverageStays(early, s, step, u, Some(s.bmcRef));
    }
    OwnersStay(s, step);
    if step.MoveBmc? {
      assert Local(s, step.r);
      if s.rots[step.r].user == u {
        MoveIsCovered(early, s, step, u);
      }
    } else if step.PatchBmc? {
      assert UserOk(s, step.u);
    }
  }

  lemma {:induction false} RunKeepsCovered(early: State, steps: seq<Step>, u: nat)
    requires Good(early) && u < |early.users|
    requires forall i :: 0 <= i < |steps| ==> LeavesToRotations(steps[i], u)
    ensures AllCovered(early, Run(early, steps), u)
  {
    if steps != [] {
      var before := Run(early, steps[..|steps| - 1]);
      RunKeepsCovered(early, steps[..|steps| - 1], u);
      RunKeepsGood(early, steps[..|steps| - 1]);
      forall q | 0 <= q < |early.rots|
        ensures q < |before.rots| && (!Unfinished(early.rots[q]) ==> !Unfinished(before.rots[q]))
      {
        RotationIsStable(early, steps[..|steps| - 1], q);
      }
      if Enabled(before, steps[|steps| - 1]) {
        StepKeepsUserCovered(early, before, steps[|steps| - 1], u);
        StepKeepsBmcCovered(early, before, steps[|steps| - 1], u);
      }
    }
  }

  /** No rotation of the user finished between the two reads. */
  predicate NoneFinished(early: State, late: State, u: nat) {
    forall q :: 0 <= q < |late.rots| && late.rots[q].user == u && !Unfinished(late.rots[q]) ==>
      q < |early.rots| && !Unfinished(early.rots[q])
  }

  lemma CoveredIsProtected(early: State, late: State, u: nat, x: nat)
    requires u < |early.users| && u < |late.users| && NoneFinished(early, late, u)
    requires Covered(early, late, u, Some(x))
    ensures Protected(LateView(early, late, u), u, x)
  {
    if Some(x) !in {early.users[u].spec, early.users[u].effective, early.users[u].bootstrap} {
      var q :| 0 <= q < |late.rots| && New(early, late, u, q) && late.rots[q].newRef == Some(x);
      assert LateView(early, late, u).rots[q] == late.rots[q];
    }
  }

  /** The user or the BMC names a secret. */
  predicate NamedBy(s: State, u: nat, x: nat)
    requires u < |s.users|
  {
    Some(x) in {s.users[u].spec, s.users[u].effective, s.users[u].bootstrap} || s.bmcRef == x
  }

  /** A rotation in flight recorded the secret or made it. */
  predicate InUse(s: State, u: nat, x: nat)
    requires x < |s.secrets|
  {
    || (exists r :: 0 <= r < |s.rots| && s.rots[r].user == u && Unfinished(s.rots[r]) && s.rots[r].newRef == Some(x))
    || (s.secrets[x].rotation.Some? && InFlight(s.rots, u, s.secrets[x].rotation.value))
  }

  /** A reference gained between the two reads, to an own secret that no rotation in flight uses. */
  predicate GainedAndUnused(early: State, late: State, u: nat, x: nat)
    requires u < |early.users| && u < |late.users|
  {
    && x < |late.secrets| && late.secrets[x].owner == Some(u) && !late.secrets[x].breakGlass
    && NamedBy(late, u, x) && !NamedBy(early, u, x) && !InUse(late, u, x)
  }

  lemma GainedIsPrunable(early: State, late: State, u: nat, x: nat)
    requires u < |early.users| && u < |late.users| && x < |late.secrets|
    ensures Prunable(LateView(early, late, u), u, x) <==>
              late.secrets[x].owner == Some(u) && !late.secrets[x].breakGlass && !NamedBy(early, u, x) && !InUse(late, u, x)
  {
    assert LateView(early, late, u).rots == late.rots;
  }

  lemma LatePruneSpares(early: State, late: State, u: nat, refused: set<nat>, v: nat, ref: Option<nat>)
    requires u < |early.users| && u < |late.users| && v < |late.users|
    requires ref.Some? ==> Mine(late, v, ref.value) && NamedBy(late, v, ref.value)
    requires forall x: nat :: GainedAndUnused(early, late, u, x) ==> x in refused
    ensures !Dangles(LatePruned(early, late, u, refused), ref)
  {
    if ref.Some? {
      GainedIsPrunable(early, late, u, ref.value);
    }
  }

  lemma LatePruneSparesRotation(early: State, late: State, u: nat, refused: set<nat>, r: nat)
    requires Good(late) && u < |early.users| && u < |late.users| && r < |late.rots| && Unfinished(late.rots[r])
    ensures var s', rot := LatePruned(early, late, u, refused), late.rots[r];
            !Dangles(s', rot.newRef) && (rot.at.Created? ==> Readable(s', rot.at.made))
  {
    var rot := late.rots[r];
    assert Local(late, r);
    if rot.newRef.Some? {
      GainedIsPrunable(early, late, u, rot.newRef.value);
    }
    if rot.at.Created? {
      GainedIsPrunable(early, late, u, rot.at.made);
      assert InFlight(late.rots, rot.user, r);
    }
  }

  /**
   Pruning that reads the user and the BMC first, and the rotations and secrets later, leaves no dangling
   reference if and only if every reference gained in between to an own secret belongs to a rotation still in
   flight (or its deletion fails).
   */
  lemma LateReadLosesIff(early: State, late: State, u: nat, refused: set<nat>)
    requires Good(late) && u < |early.users| && u < |late.users|
    ensures NothingDangles(LatePruned(early, late, u, refused))
            <==> forall x: nat :: GainedAndUnused(early, late, u, x) ==> x in refused
  {
    if forall x: nat :: GainedAndUnused(early, late, u, x) ==> x in refused {
      LateReadSpares(early, late, u, refused);
    } else {
      var x: nat :| GainedAndUnused(early, late, u, x) && x !in refused;
      LateReadLoses(early, late, u, refused, x);
    }
  }

  lemma LateReadLoses(early: State, late: State, u: nat, refused: set<nat>, x: nat)
    requires u < |early.users| && u < |late.users| && GainedAndUnused(early, late, u, x) && x !in refused
    ensures !NothingDangles(LatePruned(early, late, u, refused))
  {
    var s' := LatePruned(early, late, u, refused);
    GainedIsPrunable(early, late, u, x);
    assert !Readable(s', x);
    if s'.bmcRef != x {
      var user := s'.users[u];
      assert Dangles(s', user.spec) || Dangles(s', user.effective) || Dangles(s', user.bootstrap);
    }
  }

  lemma LateReadSpares(early: State, late: State, u: nat, refused: set<nat>)
    requires Good(late) && u < |early.users| && u < |late.users|
    requires forall x: nat :: GainedAndUnused(early, late, u, x) ==> x in refused
    ensures NothingDangles(LatePruned(early, late, u, refused))
  {
    var s' := LatePruned(early, late, u, refused);
    forall v | 0 <= v < |s'.users|
      ensures var user := s'.users[v]; !Dangles(s', user.spec) && !Dangles(s', user.effective) && !Dangles(s', user.bootstrap)
    {
      assert UserOk(late, v);
      LatePruneSpares(early, late, u, refused, v, late.users[v].spec);
      LatePruneSpares(early, late, u, refused, v, late.users[v].effective);
      LatePruneSpares(early, late, u, refused, v, late.users[v].bootstrap);
    }
    forall r | 0 <= r < |s'.rots| && Unfinished(s'.rots[r])
      ensures var rot := s'.rots[r]; !Dangles(s', rot.newRef) && (rot.at.Created? ==> Readable(s', rot.at.made))
    {
      LatePruneSparesRotation(early, late, u, refused, r);
    }
    GainedIsPrunable(early, late, u, late.bmcRef);
  }

  /** When only rotations change the user in between and none of them finishes, the condition holds. */
  lemma LateReadIsSafe(early: State, steps: seq<Step>, u: nat, refused: set<nat>)
    requires Good(early) && u < |early.users|
    requires forall i :: 0 <= i < |steps| ==> LeavesToRotations(steps[i], u)
    requires NoneFinished(early, Run(early, steps), u)
    ensures var late := Run(early, steps);
            u < |late.users| && NothingDangles(LatePruned(early, late, u, refused))
  {
    var late := Run(early, steps);
    RunKeepsCovered(early, steps, u);
    RunKeepsGood(early, steps);
    forall x: nat
      ensures !GainedAndUnused(early, late, u, x)
    {
      if x < |late.secrets| && Covered(early, late, u, Some(x)) {
        CoveredIsProtected(early, late, u, x);
        GainedIsPrunable(early, late, u, x);
      }
    }
    LateReadLosesIff(early, late, u, refused);
  }

  /** An edit in between that names an old own secret loses it. */
  lemma LateReadLosesEdited(s: State, u: nat, x: nat)
    requires Good(s) && Enabled(s, Edit(u, x)) && Prunable(s, u, x)
    ensures !NothingDangles(LatePruned(s, Next(s, Edit(u, x)), u, {}))
  {
    GainedIsPrunable(s, s, u, x);
    assert LateView(s, s, u) == s;
    LateReadLoses(s, Next(s, Edit(u, x)), u, {}, x);
  }

  // ---------------------------------------------------------------- a reference to another user's secret

  /** Pruning the owner deletes a secret that only another user names. */
  lemma ForeignReferenceDangles(s: State, owner: nat, u: nat, x: nat)
    requires owner < |s.users| && u < |s.users| && owner != u && Readable(s, x) && s.users[u].effective == Some(x)
    requires Prunable(s, owner, x) && s.users[owner].busy == Resting
    ensures !NothingDangles(Next(s, Prune(owner, {})))
  {
    assert Dangles(Next(s, Prune(owner, {})), s.users[u].effective);
  }

  // ---------------------------------------------------------------- rejected tests

  /** Ready to be retried through the peer: the test was counted and the verdict is still open. */
  predicate CutHere(s: State, r: nat, p: nat) {
    && Holds(s, r) && Unfinished(s.rots[r]) && s.rots[r].at == Counted
    && Readable(s, s.rots[r].newRef.value)
    && Candidate(s, s.rots[r].user, p) && !Active(s.rots, p)
    && Readable(s, s.users[p].effective.value) && s.users[p].account == Of(s.users[p].effective.value)
  }

  function Connecting(s: State, r: nat, p: nat): State
    requires Holds(s, r) && Candidate(s, s.rots[r].user, p)
  {
    var rot := s.rots[r];
    WithRot(s, r, rot.(at := Ready(p, s.users[p].effective.value), phase := InProgress, cuts := rot.cuts + 1))
  }

  lemma AgainConnects(s: State, r: nat, p: nat)
    requires CutHere(s, r, p)
    ensures After(After(s, Cut(r)), Begin(r, [p])) == Connecting(s, r, p)
  {
    var cut := After(s, Cut(r));
    assert !Active(cut.rots, p);
    assert FindPeer(cut, s.rots[r].user, [p]) == Found(p, s.users[p].effective.value);
  }

  /** One more cut-off, one more rejected test. */
  lemma AgainRejects(s: State, r: nat, p: nat) returns (steps: seq<Step>)
    requires CutHere(s, r, p)
    ensures OneMore(s, Run(s, steps), r, p)
  {
    steps := [Cut(r), Begin(r, [p]), Write(r, true), Test(r)] + [Count(r)];
    RunFour(s, Cut(r), Begin(r, [p]), Write(r, true), Test(r));
    assert steps[..4] == [Cut(r), Begin(r, [p]), Write(r, true), Test(r)];
    AgainConnects(s, r, p);
    RejectedAgain(s, r, p);
  }

  predicate OneMore(s: State, s': State, r: nat, p: nat)
    requires r < |s.rots|
  {
    CutHere(s', r, p) && s'.rots[r].rejected == s.rots[r].rejected + 1 && s'.rots[r].cuts == s.rots[r].cuts + 1
  }

  lemma RejectedAgain(s: State, r: nat, p: nat)
    requires CutHere(s, r, p)
    ensures OneMore(s, After(After(After(Connecting(s, r, p), Write(r, true)), Test(r)), Count(r)), r, p)
  {
    var written := After(Connecting(s, r, p), Write(r, true));
    assert written.users[s.rots[r].user].account == Mangled;
    assert !Active(After(After(written, Test(r)), Count(r)).rots, p);
  }

  /** The bound on rejected tests is reached: each cut-off after a counted test lets another one happen. */
  lemma {:induction false} CutOffsAddRejections(s: State, r: nat, p: nat, k: nat) returns (steps: seq<Step>)
    requires CutHere(s, r, p)
    ensures var end := Run(s, steps);
            && CutHere(end, r, p)
            && end.rots[r].rejected == s.rots[r].rejected + k && end.rots[r].cuts == s.rots[r].cuts + k
  {
    steps := [];
    if k > 0 {
      var before := CutOffsAddRejections(s, r, p, k - 1);
      var again := AgainRejects(Run(s, before), r, p);
      RunConcat(s, before, again);
      steps := before + again;
    }
  }
}
