/**
 How a reconcile of a rotation or of a user ends, told by what it finds, and why a rotation fails.
 */
module RotationOutcomes {
  import opened Options
  import opened Rotation
  import opened RotationSafety
  import opened RotationStore

  // ---------------------------------------------------------------- a rotation

  /** Nobody listed settles the search: the rotation fails and nothing else changes. */
  lemma NoPeerFails(s: State, r: nat, listing: seq<nat>, mangles: bool, max: nat)
    requires r < |s.rots| && Unfinished(s.rots[r]) && s.rots[r].at == Idle
    requires forall i :: 0 <= i < |listing| ==> !Settles(s, s.rots[r].user, listing[i])
    ensures Attempt(s, r, listing, mangles, max) == WithRot(s, r, s.rots[r].(phase := Failed))
  {
    FindPeerIff(s, s.rots[r].user, listing);
    var begun := After(s, Begin(r, listing));
    assert begun == WithRot(s, r, s.rots[r].(phase := Failed));
    IdleEnds(begun, r, mangles, max);
  }

  /** A busy candidate settles it: the rotation waits. */
  lemma BusyPeerWaits(s: State, r: nat, listing: seq<nat>, mangles: bool, max: nat, i: nat)
    requires r < |s.rots| && Unfinished(s.rots[r]) && s.rots[r].at == Idle
    requires SettlesFirst(s, s.rots[r].user, listing, i) && Active(s.rots, listing[i])
    ensures Attempt(s, r, listing, mangles, max) == WithRot(s, r, s.rots[r].(phase := InProgress))
  {
    FindPeerIff(s, s.rots[r].user, listing);
    var begun := After(s, Begin(r, listing));
    assert begun == WithRot(s, r, s.rots[r].(phase := InProgress));
    IdleEnds(begun, r, mangles, max);
  }

  /** A recorded secret that is gone is never sent: the rotation waits for it. */
  lemma MissingSecretWaits(s: State, r: nat, listing: seq<nat>, mangles: bool, max: nat, i: nat)
    requires r < |s.rots| && Unfinished(s.rots[r]) && s.rots[r].at == Idle
    requires SettlesFirst(s, s.rots[r].user, listing, i) && s.rots[r].newRef.Some? && !Readable(s, s.rots[r].newRef.value)
    ensures Attempt(s, r, listing, mangles, max) == WithRot(s, r, s.rots[r].(phase := InProgress))
  {
    FindPeerIff(s, s.rots[r].user, listing);
    var begun := After(s, Begin(r, listing));
    assert begun == WithRot(s, r, s.rots[r].(phase := InProgress));
    IdleEnds(begun, r, mangles, max);
  }

  /** Without a peer the rest of the reconcile does nothing. */
  lemma IdleEnds(s: State, r: nat, mangles: bool, max: nat)
    requires r < |s.rots| && s.rots[r].at == Idle
    ensures Promotion(Retried(Tried(Prepared(s, r), r, mangles), r, max), r) == s
  {
    assert Prepared(s, r) == s;
    assert Tried(s, r, mangles) == s;
    assert Retried(s, r, max) == s;
    assert Promotion(s, r) == s;
  }

  /** A borrowed credential that the BMC rejects by now: no account changes. */
  lemma RejectedCredentialStops(s: State, r: nat, mangles: bool, max: nat)
    requires Holds(s, r) && s.rots[r].at.Ready?
    requires s.rots[r].at.peer < |s.users| ==> s.users[s.rots[r].at.peer].account != Of(s.rots[r].at.cred)
    ensures Promotion(Retried(Tried(s, r, mangles), r, max), r) == WithRot(s, r, s.rots[r].(at := Idle))
  {
    var idle := WithRot(s, r, s.rots[r].(at := Idle));
    assert After(s, Write(r, mangles)) == idle;
    assert After(idle, Test(r)) == idle;
    assert Retried(idle, r, max) == idle;
    assert Promotion(idle, r) == idle;
  }

  /** A BMC that mangles the password: the rejection is counted, and the rotation fails when that was the last allowed one. */
  lemma MangledIsCounted(s: State, r: nat, max: nat)
    requires CanWrite(s, r)
    ensures var rot, v := s.rots[r], s.rots[r].user;
            var s' := Promotion(Retried(Tried(s, r, true), r, max), r);
            && s'.users == s.users[v := s.users[v].(account := Mangled)] && s'.bmcRef == s.bmcRef && s'.secrets == s.secrets
            && s'.rots == s.rots[r := rot.(
                 at := Idle, phase := if rot.retries + 1 >= max then Failed else rot.phase, retries := rot.retries + 1,
                 rejected := rot.rejected + 1, sent := rot.sent + {rot.newRef.value})]
  {
    var rot := s.rots[r];
    var tried := Tried(s, r, true);
    assert tried.rots[r] == rot.(at := Rejected, rejected := rot.rejected + 1, sent := rot.sent + {rot.newRef.value});
    var retried := Retried(tried, r, max);
    assert retried.rots[r].at == Idle;
    assert Promotion(retried, r) == retried;
  }

  /** A step makes a rotation fail exactly when nobody can help it, its limits contradict, or its last test was rejected. */
  lemma FailsIff(s: State, step: Step, r: nat)
    requires Enabled(s, step) && r < |s.rots| && Unfinished(s.rots[r])
    ensures Next(s, step).rots[r].phase == Failed <==>
              || (step.Begin? && step.r == r && forall i :: 0 <= i < |step.listing| ==> !Settles(s, s.rots[r].user, step.listing[i]))
              || step == Refuse(r)
              || (step.Judge? && step.r == r && s.rots[r].retries >= step.max)
  {
    if step.Begin? {
      FindPeerIff(s, s.rots[step.r].user, step.listing);
    }
  }

  /** Of those, a verdict is passed only after as many rejected tests as are allowed. */
  lemma FailsAfterAllowedRejections(s: State, steps: seq<Step>, r: nat, max: nat)
    requires Start(s) && max > 0 && r < |Run(s, steps).rots|
    requires forall i :: 0 <= i < |steps| && steps[i].Judge? ==> steps[i].max == max
    requires var before := Run(s, steps); Enabled(before, Judge(r, max)) && Next(before, Judge(r, max)).rots[r].phase == Failed
    ensures Run(s, steps).rots[r].rejected >= max
  {
    RunKeepsAccounted(s, steps, r, max);
    RunKeepsGood(s, steps);
    assert Local(Run(s, steps), r);
    VerdictAfterRejections(Run(s, steps), r, max);
  }

  lemma VerdictAfterRejections(s: State, r: nat, max: nat)
    requires max > 0 && r < |s.rots| && Local(s, r) && Accounted(s.rots[r], max)
    requires Enabled(s, Judge(r, max)) && Next(s, Judge(r, max)).rots[r].phase == Failed
    ensures s.rots[r].rejected >= max
  {
  }

  /** A step makes a rotation succeed exactly after its references were moved. */
  lemma SucceedsIff(s: State, step: Step, r: nat)
    requires Enabled(s, step) && r < |s.rots| && Unfinished(s.rots[r])
    ensures Next(s, step).rots[r].phase == Succeeded <==> step == Succeed(r)
  {
  }

  predicate CutsOk(rot: Rot) {
    rot.cuts + (if rot.at in {Rejected, Counted} then 1 else 0) <= rot.rejected
  }

  lemma StepKeepsCutsOk(s: State, step: Step, r: nat)
    requires Enabled(s, step) && r < |s.rots| && CutsOk(s.rots[r])
    ensures r < |Next(s, step).rots| && CutsOk(Next(s, step).rots[r])
  {
  }

  /** Only a rejected test whose verdict is lost counts as cut off, along every run. */
  lemma {:induction false} CutsFollowRejections(s: State, steps: seq<Step>, r: nat)
    requires s.rots == [] && r < |Run(s, steps).rots|
    ensures Run(s, steps).rots[r].cuts <= Run(s, steps).rots[r].rejected && CutsOk(Run(s, steps).rots[r])
  {
    if steps != [] {
      var before, step := Run(s, steps[..|steps| - 1]), steps[|steps| - 1];
      if r < |before.rots| {
        CutsFollowRejections(s, steps[..|steps| - 1], r);
        if Enabled(before, step) {
          StepKeepsCutsOk(before, step, r);
        }
      }
    }
  }

  // ---------------------------------------------------------------- a user

  /** A BMC that referred to the desired secret when the reconcile looked is left alone, whoever moved it since. */
  lemma BmcMovesIff(s: State, u: nat, x: nat, b: nat)
    requires u < |s.users| && s.users[u].busy == Moved(x, b)
    ensures Next(s, PatchBmc(u)) == WithUser(s, u, s.users[u].(busy := Resting)).(bmcRef := Next(s, PatchBmc(u)).bmcRef)
    ensures Next(s, PatchBmc(u)).bmcRef != s.bmcRef <==> b != x && s.bmcRef != x
    ensures b != x ==> Next(s, PatchBmc(u)).bmcRef == x
  {
  }

  /** At rest on this BMC with a desired secret that exists. */
  predicate Refreshable(s: State, u: nat) {
    u < |s.users| && s.users[u].here && s.users[u].busy == Resting && s.users[u].spec.Some? && Readable(s, s.users[u].spec.value)
  }

  /** The account accepts the desired secret, and the effective one is missing or rejected. */
  predicate TakesOver(s: State, u: nat)
    requires Refreshable(s, u)
  {
    var user := s.users[u];
    && user.account == Of(user.spec.value)
    && (user.effective.None? || (Readable(s, user.effective.value) && user.account != Of(user.effective.value)))
  }

  /** The account rejects the desired secret, and another one is effective. */
  predicate Reapplies(s: State, u: nat)
    requires Refreshable(s, u)
  {
    var user := s.users[u];
    user.account != Of(user.spec.value) && user.effective.Some? && user.effective != user.spec
  }

  /** The first desired secret that works becomes effective, also for the BMC. */
  lemma RefreshTakesOver(s: State, u: nat, mangles: bool)
    requires Refreshable(s, u) && TakesOver(s, u)
    ensures UserAttempt(s, u, mangles)
            == WithUser(s, u, s.users[u].(effective := s.users[u].spec)).(bmcRef := if s.users[u].admin then s.users[u].spec.value else s.bmcRef)
  {
    var user := s.users[u];
    var x := user.spec.value;
    TestsTakeOver(s, u);
    var moving := WithUser(s, u, user.(busy := Moving(x, s.bmcRef)));
    var patched := WithUser(s, u, user.(effective := user.spec, busy := if user.admin then Moved(x, s.bmcRef) else Resting));
    assert After(moving, PatchEffective(u)) == patched;
    var done := WithUser(s, u, user.(effective := user.spec)).(bmcRef := if user.admin then x else s.bmcRef);
    assert user.(effective := user.spec) == user.(effective := user.spec, busy := Resting);
    assert After(patched, PatchBmc(u)) == done;
    RestEnds(done, u, mangles);
  }

  lemma TestsTakeOver(s: State, u: nat)
    requires Refreshable(s, u) && TakesOver(s, u)
    ensures Tested(s, u) == WithUser(s, u, s.users[u].(busy := Moving(s.users[u].spec.value, s.bmcRef)))
  {
    var user := s.users[u];
    var looked := WithUser(s, u, user.(busy := Looked(user.spec.value, user.effective, s.bmcRef)));
    assert After(s, Look(u)) == looked;
    if user.effective.Some? {
      assert After(looked, TryDesired(u)) == WithUser(s, u, user.(busy := Liked(user.spec.value, user.effective.value, s.bmcRef)));
    }
  }

  /** Nothing is left to do. */
  lemma RestEnds(s: State, u: nat, mangles: bool)
    requires u < |s.users| && s.users[u].busy == Resting
    ensures Applied(s, u, mangles) == s
  {
    assert s.users[u].(busy := Resting) == s.users[u];
    assert s.users[u := s.users[u]] == s.users;
  }

  /** A desired secret that does not work yet is put on the account. */
  lemma RefreshReapplies(s: State, u: nat, mangles: bool)
    requires Refreshable(s, u) && Reapplies(s, u)
    ensures UserAttempt(s, u, mangles)
            == WithUser(s, u, s.users[u].(account := if mangles then Mangled else Of(s.users[u].spec.value)))
  {
    TestsReapply(s, u);
    RewritingEnds(s, u, s.users[u].spec.value, mangles);
  }

  lemma RewritingEnds(s: State, u: nat, x: nat, mangles: bool)
    requires u < |s.users| && s.users[u].busy == Resting
    ensures Applied(Refreshed(WithUser(s, u, s.users[u].(busy := Rewriting(x))), u), u, mangles)
            == WithUser(s, u, s.users[u].(account := if mangles then Mangled else Of(x)))
  {
    var rewriting := WithUser(s, u, s.users[u].(busy := Rewriting(x)));
    assert Refreshed(rewriting, u) == rewriting;
    var done := s.users[u].(account := if mangles then Mangled else Of(x));
    assert done == done.(busy := Resting);
    assert After(rewriting, Rewrite(u, mangles)) == WithUser(s, u, done);
  }

  lemma TestsReapply(s: State, u: nat)
    requires Refreshable(s, u) && Reapplies(s, u)
    ensures Tested(s, u) == WithUser(s, u, s.users[u].(busy := Rewriting(s.users[u].spec.value)))
  {
    var user := s.users[u];
    var looked := WithUser(s, u, user.(busy := Looked(user.spec.value, user.effective, s.bmcRef)));
    assert After(s, Look(u)) == looked;
    var rewriting := WithUser(s, u, user.(busy := Rewriting(user.spec.value)));
    assert After(looked, TryDesired(u)) == rewriting;
    assert After(rewriting, TryEffective(u)) == rewriting;
  }

  /** In every other case the reconcile of the user changes nothing. */
  lemma OtherwiseUnchanged(s: State, u: nat, mangles: bool)
    requires u < |s.users| && s.users[u].busy == Resting
    requires Refreshable(s, u) ==> !TakesOver(s, u) && !Reapplies(s, u)
    ensures UserAttempt(s, u, mangles) == s
  {
    TestsOtherwise(s, u);
    HaltedEnds(s, u, Tested(s, u).users[u].busy, mangles);
  }

  /** Tests that a rotation overtakes: the account is to be rewritten when it accepts the effective secret by now. */
  lemma OvertakenTestsReapply(s: State, u: nat, x: nat, was: nat, b: nat, mangles: bool)
    requires u < |s.users| && s.users[u].busy == Liked(x, was, b) && Readable(s, was) && x != was
    ensures var tested := After(s, TryEffective(u));
            if s.users[u].account == Of(was) then
              After(tested, Rewrite(u, mangles)) == WithUser(s, u, s.users[u].(account := if mangles then Mangled else Of(x), busy := Resting))
            else tested == WithUser(s, u, s.users[u].(busy := Moving(x, b)))
  {
  }

  /** A reconcile that goes on with the references its status patch returned rewrites the account exactly when they differ. */
  lemma LookAgainReapplies(s: State, u: nat, mangles: bool)
    requires Enabled(s, LookAgain(u))
    ensures var user := s.users[u];
            After(After(s, LookAgain(u)), Rewrite(u, mangles))
            == if user.effective.Some? && user.effective != user.spec
               then WithUser(s, u, user.(account := if mangles then Mangled else Of(user.spec.value)))
               else s
  {
    var user := s.users[u];
    assert s.users[u := user] == s.users;
    var looked := WithUser(s, u, user.(busy := Compared(user.spec.value, user.effective)));
    assert After(s, LookAgain(u)) == looked;
    assert user.(busy := Resting) == user;
  }

  /** Nothing was decided when the reconcile ends. */
  predicate Halted(busy: Busy) {
    busy == Resting || busy.Looked? || busy.Liked?
  }

  lemma HaltedEnds(s: State, u: nat, busy: Busy, mangles: bool)
    requires u < |s.users| && s.users[u].busy == Resting && Halted(busy)
    ensures Applied(Refreshed(WithUser(s, u, s.users[u].(busy := busy)), u), u, mangles) == s
  {
    var halted := WithUser(s, u, s.users[u].(busy := busy));
    assert Refreshed(halted, u) == halted;
    assert After(halted, Rewrite(u, mangles)) == halted;
    assert halted.users[u].(busy := Resting) == s.users[u];
    assert halted.users[u := s.users[u]] == s.users;
  }

  lemma TestsOtherwise(s: State, u: nat)
    requires u < |s.users| && s.users[u].busy == Resting
    requires Refreshable(s, u) ==> !TakesOver(s, u) && !Reapplies(s, u)
    ensures |Tested(s, u).users| == |s.users| && Halted(Tested(s, u).users[u].busy)
    ensures Tested(s, u) == WithUser(s, u, s.users[u].(busy := Tested(s, u).users[u].busy))
  {
    var user := s.users[u];
    assert s.users[u := user] == s.users && user.(busy := Resting) == user;
    if user.here && user.spec.Some? {
      var looked := WithUser(s, u, user.(busy := Looked(user.spec.value, user.effective, s.bmcRef)));
      assert After(s, Look(u)) == looked;
    }
  }

  // ---------------------------------------------------------------- pruning

  /** Named by the user or the BMC, or recorded in or made by a rotation of the user that is not finished. */
  predicate Needed(s: State, u: nat, x: nat)
    requires u < |s.users| && x < |s.secrets|
  {
    || Some(x) in {s.users[u].spec, s.users[u].effective, s.users[u].bootstrap, Some(s.bmcRef)}
    || exists r :: 0 <= r < |s.rots| && s.rots[r].user == u && Unfinished(s.rots[r])
                   && (s.rots[r].newRef == Some(x) || s.secrets[x].rotation == Some(r))
  }

  /** Pruning deletes exactly the user's own secrets that nobody needs, break-glass ones and refused deletions aside. */
  lemma PrunesIff(s: State, u: nat, refused: set<nat>, x: nat)
    requires Enabled(s, Prune(u, refused)) && x < |s.secrets| && s.secrets[x].live
    ensures var s' := Next(s, Prune(u, refused));
            && |s'.secrets| == |s.secrets| && s' == s.(secrets := s'.secrets)
            && s'.secrets[x].(live := true) == s.secrets[x]
            && (!s'.secrets[x].live <==> s.secrets[x].owner == Some(u) && !s.secrets[x].breakGlass && x !in refused && !Needed(s, u, x))
  {
  }

  predicate MadeByRotation(s: State, x: nat)
    requires x < |s.secrets|
  {
    var secret := s.secrets[x];
    && !secret.breakGlass && secret.rotation.Some? && secret.rotation.value < |s.rots|
    && secret.owner == Some(s.rots[secret.rotation.value].user)
  }

  lemma StepKeepsOwners(s: State, step: Step, r: nat)
    requires Enabled(s, step) && r < |s.rots|
    ensures r < |Next(s, step).rots| && Next(s, step).rots[r].user == s.rots[r].user
  {
  }

  lemma StepKeepsLabels(s: State, step: Step, x: nat)
    requires Enabled(s, step) && x < |s.secrets|
    ensures var s' := Next(s, step); x < |s'.secrets| && s'.secrets[x].(live := s.secrets[x].live) == s.secrets[x]
  {
  }

  lemma StepMakes(s: State, step: Step, x: nat)
    requires Enabled(s, step) && |s.secrets| <= x < |Next(s, step).secrets|
    ensures MadeByRotation(Next(s, step), x)
  {
    assert step.MakeSecret?;
  }

  /** Along every run only rotations make secrets, for their own users and never for emergencies, so they can be pruned. */
  lemma {:induction false} OnlyRotationsMakeSecrets(s: State, steps: seq<Step>, x: nat)
    requires |s.secrets| <= x < |Run(s, steps).secrets|
    ensures MadeByRotation(Run(s, steps), x)
  {
    if steps != [] {
      var before, step := Run(s, steps[..|steps| - 1]), steps[|steps| - 1];
      if x < |before.secrets| {
        OnlyRotationsMakeSecrets(s, steps[..|steps| - 1], x);
        if Enabled(before, step) {
          StepKeepsLabels(before, step, x);
          StepKeepsOwners(before, step, before.secrets[x].rotation.value);
        }
      } else if Enabled(before, step) {
        StepMakes(before, step, x);
      }
    }
  }

  /** A secret without an owner, or for emergencies, is never deleted, whatever else happens. */
  lemma {:induction false} EmergencySecretStays(s: State, steps: seq<Step>, x: nat)
    requires x < |s.secrets| && s.secrets[x].live && (s.secrets[x].breakGlass || s.secrets[x].owner.None?)
    ensures var end := Run(s, steps); x < |end.secrets| && end.secrets[x] == s.secrets[x]
  {
    if steps != [] {
      EmergencySecretStays(s, steps[..|steps| - 1], x);
    }
  }
}
