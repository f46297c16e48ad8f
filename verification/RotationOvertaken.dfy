/**
 A refresh of an effective secret that a rotation overtakes: the run that locks everybody out although
 every credential was tested before it was put in force.
 */
module RotationOvertaken {
  import opened Options
  import opened Rotation
  import opened RotationSafety
  import opened RotationStore
  import opened RotationLockout

  /** What a rotation's own steps leave alone since `s0`. */
  predicate TouchesOne(s0: State, s: State, r: nat) {
    && r < |s0.rots| && |s.rots| == |s0.rots| && |s.users| == |s0.users| && s0.secrets <= s.secrets
    && s.rots[r].user == s0.rots[r].user
    && (forall q :: 0 <= q < |s0.rots| && q != r ==> s.rots[q] == s0.rots[q])
    && (forall v :: 0 <= v < |s0.users| && v != s0.rots[r].user ==> s.users[v] == s0.users[v])
    && (forall v :: 0 <= v < |s0.users| ==>
          s.users[v].admin == s0.users[v].admin && s.users[v].here == s0.users[v].here && s.users[v].busy == s0.users[v].busy)
    && (forall x: nat :: x < |s0.secrets| && Uses(s.rots[r], x) ==> Uses(s0.rots[r], x))
  }

  lemma StepTouchesOne(s0: State, s: State, step: Step, r: nat)
    requires Good(s) && TouchesOne(s0, s, r) && Actor(step) == Some(r)
    ensures Good(After(s, step)) && TouchesOne(s0, After(s, step), r)
  {
    if Enabled(s, step) {
      assert Local(s, r);
      StepFrame(s, step);
      StepUsesFresh(s, step);
      StepKeepsGood(s, step);
      FrameTouchesOne(s0, s, Next(s, step), r);
    }
  }

  lemma FrameTouchesOne(s0: State, s: State, s': State, r: nat)
    requires TouchesOne(s0, s, r) && Frame(s, s', r)
    requires forall x: nat :: x < |s.secrets| && Uses(s'.rots[r], x) ==> Uses(s.rots[r], x)
    ensures TouchesOne(s0, s', r)
  {
  }

  lemma AttemptTouchesOne(s: State, r: nat, listing: seq<nat>, mangles: bool, max: nat)
    requires Good(s) && r < |s.rots|
    ensures var s' := Attempt(s, r, listing, mangles, max); Good(s') && TouchesOne(s, s', r)
  {
    var s1 := After(s, Begin(r, listing));
    StepTouchesOne(s, s, Begin(r, listing), r);
    StepTouchesOne(s, s1, MakeSecret(r), r);
    StepTouchesOne(s, After(s1, MakeSecret(r)), Persist(r), r);
    var s2 := Prepared(s1, r);
    StepTouchesOne(s, s2, Write(r, mangles), r);
    StepTouchesOne(s, After(s2, Write(r, mangles)), Test(r), r);
    var s3 := Tried(s2, r, mangles);
    StepTouchesOne(s, s3, Count(r), r);
    StepTouchesOne(s, After(s3, Count(r)), Judge(r, max), r);
    PromotionTouchesOne(s, Retried(s3, r, max), r);
  }

  lemma PromotionTouchesOne(s0: State, s: State, r: nat)
    requires Good(s) && TouchesOne(s0, s, r)
    ensures Good(Promotion(s, r)) && TouchesOne(s0, Promotion(s, r), r)
  {
    StepTouchesOne(s0, s, MoveSpec(r), r);
    var s1 := After(s, MoveSpec(r));
    StepTouchesOne(s0, s1, MoveEffective(r), r);
    var s2 := After(s1, MoveEffective(r));
    StepTouchesOne(s0, s2, MoveBmc(r), r);
    StepTouchesOne(s0, After(s2, MoveBmc(r)), Succeed(r), r);
  }

  // ---------------------------------------------------------------- the run

  /** One user whose refresh is due, another that authenticates, and no rotation in flight of either. */
  ghost predicate RefreshDue(s: State, u: nat, v: nat) {
    && Good(s) && u < |s.users| && v < |s.users| && u != v && !Active(s.rots, u) && !Active(s.rots, v)
    && s.users[u].admin && s.users[u].here && s.users[u].busy == Resting
    && s.users[u].spec.Some? && s.users[u].account == Of(s.users[u].spec.value)
    && s.users[u].effective.Some? && s.users[u].effective != s.users[u].spec
    && Authenticates(s, v)
    && forall w :: 0 <= w < |s.users| && Authenticates(s, w) ==> w == v
  }

  /** The refresh has passed its tests and is about to patch. */
  function Passing(s: State, u: nat): State
    requires u < |s.users| && s.users[u].spec.Some?
  {
    WithUser(s, u, s.users[u].(busy := Moving(s.users[u].spec.value, s.bmcRef)))
  }

  lemma TestsPass(s: State, u: nat, v: nat)
    requires RefreshDue(s, u, v)
    ensures Tested(s, u) == Passing(s, u) && Good(Passing(s, u))
  {
    var x, e := s.users[u].spec.value, s.users[u].effective.value;
    assert UserOk(s, u);
    var looked := WithUser(s, u, s.users[u].(busy := Looked(x, Some(e), s.bmcRef)));
    assert After(s, Look(u)) == looked;
    var liked := WithUser(s, u, s.users[u].(busy := Liked(x, e, s.bmcRef)));
    assert After(looked, TryDesired(u)) == liked;
    assert After(liked, TryEffective(u)) == Passing(s, u);
    StepKeepsGood(s, Look(u));
    StepKeepsGood(looked, TryDesired(u));
    StepKeepsGood(liked, TryEffective(u));
  }

  /** A rotation of the user becomes due and succeeds meanwhile. */
  ghost predicate Rotated(s: State, s': State, u: nat, v: nat, r: nat) {
    && Good(s') && r < |s'.rots| && |s'.users| == |s.users| && s'.rots[r].user == u && InForce(s', r)
    && s'.rots[r].newRef.Some? && s'.rots[r].newRef.value >= |s.secrets|
    && s'.users[u].busy == s.users[u].busy && s'.users[u].admin && s'.users[u].here
    && (forall w :: 0 <= w < |s.users| && w != u ==> s'.users[w] == s.users[w])
    && !Active(s'.rots, u) && !Active(s'.rots, v)
    && s.secrets <= s'.secrets
  }

  lemma CreateIsGood(s: State, u: nat)
    requires Good(s) && Enabled(s, Create(u))
    ensures var s' := After(s, Create(u));
            && Good(s') && s'.users == s.users && s'.secrets == s.secrets && s'.rots[..|s.rots|] == s.rots
            && |s'.rots| == |s.rots| + 1 && s'.rots[|s.rots|] == Rot(u, Pending, None, 0, Idle, {}, 0, 0)
  {
    StepKeepsGood(s, Create(u));
  }

  lemma RotationSucceeds(s: State, u: nat, v: nat, max: nat)
    requires Good(s) && Enabled(s, Create(u)) && v < |s.users| && v != u && Authenticates(s, v) && !Active(s.rots, v)
    ensures var r := |s.rots|; Rotated(s, Attempt(After(s, Create(u)), r, [v], false, max), u, v, r)
  {
    var r := |s.rots|;
    var s1 := After(s, Create(u));
    CreateIsGood(s, u);
    assert !Active(s1.rots, v) by {
      assert forall q :: 0 <= q < r ==> s1.rots[q] == s1.rots[..r][q];
    }
    assert SettlesFirst(s1, u, [v], 0);
    CalmAttemptSucceeds(s1, r, [v], max);
    AttemptTouchesOne(s1, r, [v], false, max);
    AfterRotation(s, s1, Attempt(s1, r, [v], false, max), u, v, r);
  }

  lemma AfterRotation(s: State, s1: State, s': State, u: nat, v: nat, r: nat)
    requires s1.users == s.users && s1.secrets == s.secrets && r == |s.rots| && |s1.rots| == r + 1 && s1.rots[..r] == s.rots
    requires s1.rots[r] == Rot(u, Pending, None, 0, Idle, {}, 0, 0) && u < |s.users| && s.users[u].admin && s.users[u].here
    requires Good(s') && TouchesOne(s1, s', r) && InForce(s', r) && !Active(s.rots, u) && !Active(s.rots, v) && v != u
    ensures Rotated(s, s', u, v, r)
  {
    assert forall q :: 0 <= q < r ==> s1.rots[q] == s1.rots[..r][q];
    var x := s'.rots[r].newRef.value;
    assert Uses(s'.rots[r], x);
  }

  /** The other user's rotation borrows the new credential, then the delayed patch takes it out of force. */
  lemma DelayedPatch(s: State, s': State, u: nat, v: nat, r: nat)
    requires Good(s) && Rotated(s, s', u, v, r) && u < |s.users| && v < |s.users| && u != v && s.users[u].busy.Moving? && s.users[u].busy.x < |s.secrets|
    requires Authenticates(s, v) && forall w :: 0 <= w < |s.users| && Authenticates(s, w) ==> w == v
    ensures var end := After(After(After(s', Create(v)), Begin(|s'.rots|, [u])), PatchEffective(u));
            Good(end) && !Firm(end)
  {
    var q := |s'.rots|;
    var s1 := After(s', Create(v));
    CreateIsGood(s', v);
    assert !Active(s1.rots, u) by {
      assert forall i :: 0 <= i < q ==> s1.rots[i] == s1.rots[..q][i];
    }
    var n := s'.rots[r].newRef.value;
    assert FindPeer(s1, v, [u]) == Found(u, n);
    var s2 := After(s1, Begin(q, [u]));
    assert s2 == WithRot(s1, q, s1.rots[q].(phase := InProgress, at := Connected(u, n)));
    StepKeepsGood(s1, Begin(q, [u]));
    StepKeepsGood(s2, PatchEffective(u));
    NobodySteady(s, s', s2, u, v, n);
  }

  lemma NobodySteady(s: State, s': State, s2: State, u: nat, v: nat, n: nat)
    requires u < |s.users| && v < |s.users| && u != v && |s2.users| == |s.users| && s2.users == s'.users && s.secrets <= s2.secrets
    requires forall w :: 0 <= w < |s.users| && w != u ==> s'.users[w] == s.users[w]
    requires forall w :: 0 <= w < |s.users| ==> UserOk(s, w)
    requires s2.rots != [] && s2.rots[|s2.rots| - 1].at == Connected(u, n) && s2.rots[|s2.rots| - 1].user == v
    requires s2.users[u].account == Of(n) && s2.users[u].busy.Moving? && s2.users[u].busy.x != n
    requires forall w :: 0 <= w < |s.users| && Authenticates(s, w) ==> w == v
    ensures !Firm(After(s2, PatchEffective(u)))
  {
    var end, q := After(s2, PatchEffective(u)), |s2.rots| - 1;
    forall w | 0 <= w < |end.users|
      ensures !Steady(end, w)
    {
      if w == v {
        assert end.rots[q].user == v && MayWrite(end, q);
      } else if w != u {
        assert end.users[w] == s.users[w] && UserOk(s, w) && !Authenticates(s, w);
        assert !Authenticates(end, w);
      } else {
        assert end.users[u].effective == Some(s2.users[u].busy.x);
      }
    }
  }

  /**
   A refresh passes both tests and stalls; a rotation of its user succeeds; the only other user borrows the
   new credential; the stalled patch goes through. From there one write locks everybody out.
   */
  lemma OvertakenRefreshLocksOut(s: State, u: nat, v: nat, max: nat) returns (steps: seq<Step>)
    requires RefreshDue(s, u, v)
    ensures !Open(Run(s, steps))
  {
    var s1 := Passing(s, u);
    TestsPass(s, u, v);
    var r := |s.rots|;
    var s3 := Attempt(After(s1, Create(u)), r, [v], false, max);
    RotationSucceeds(s1, u, v, max);
    forall w | 0 <= w < |s1.users| && Authenticates(s1, w)
      ensures w == v
    {
      assert w != u ==> Authenticates(s, w);
    }
    assert UserOk(s1, u);
    var end := After(After(After(s3, Create(v)), Begin(|s3.rots|, [u])), PatchEffective(u));
    DelayedPatch(s1, s3, u, v, r);
    var first := RunTo(s, u, v, max);
    var rest := LockoutFollows(end);
    RunConcat(s, first, rest);
    steps := first + rest;
  }

  /** Such a state is a possible start. */
  lemma RefreshCanBeDue() returns (s: State)
    ensures Start(s) && Open(s) && RefreshDue(s, 0, 1)
  {
    var secret := Secret(None, None, false, true);
    s := State(
      [User(true, true, Some(0), Some(1), None, Of(0), Resting), User(true, true, Some(2), Some(2), None, Of(2), Resting)],
      [], [secret, secret, secret], 2);
    assert UserOk(s, 0) && UserOk(s, 1);
    assert Authenticates(s, 1);
  }

  lemma RunTo(s: State, u: nat, v: nat, max: nat) returns (steps: seq<Step>)
    ensures var s3 := Attempt(After(Tested(s, u), Create(u)), |s.rots|, [v], false, max);
            Run(s, steps) == After(After(After(s3, Create(v)), Begin(|s3.rots|, [u])), PatchEffective(u))
  {
    assert Run(s, []) == s;
    ReachesAfter(s, s, Look(u));
    ReachesAfter(s, After(s, Look(u)), TryDesired(u));
    ReachesAfter(s, After(After(s, Look(u)), TryDesired(u)), TryEffective(u));
    ReachesAfter(s, Tested(s, u), Create(u));
    var s2 := After(Tested(s, u), Create(u));
    AttemptIsRun(s2, |s.rots|, [v], false, max);
    ReachesFurther(s, s2, Attempt(s2, |s.rots|, [v], false, max));
    var s3 := Attempt(s2, |s.rots|, [v], false, max);
    ReachesAfter(s, s3, Create(v));
    ReachesAfter(s, After(s3, Create(v)), Begin(|s3.rots|, [u]));
    ReachesAfter(s, After(After(s3, Create(v)), Begin(|s3.rots|, [u])), PatchEffective(u));
    steps :| Run(s, steps) == After(After(After(s3, Create(v)), Begin(|s3.rots|, [u])), PatchEffective(u));
  }

  lemma ReachesFurther(s: State, s': State, s'': State)
    requires Reaches(s, s') && Reaches(s', s'')
    ensures Reaches(s, s'')
  {
    var first :| Run(s, first) == s';
    var second :| Run(s', second) == s'';
    RunConcat(s, first, second);
  }
}
