/**
 When references move only to secrets that the account accepts: exactly as long as no account is changed
 between the test of a secret and the moves that rely on it.
 */
module RotationReferences {
  import opened Options
  import opened Rotation
  import opened RotationSafety
  import opened RotationLockout

  /** Past its test, with a reference still to move. */
  predicate RotMoves(rot: Rot) {
    rot.at in {Accepted, SpecMoved, EffectiveMoved} && rot.newRef.Some?
  }

  predicate RotCalm(s: State, r: nat)
    requires r < |s.rots|
  {
    var rot := s.rots[r];
    RotMoves(rot) && rot.user < |s.users| ==> s.users[rot.user].account == Of(rot.newRef.value)
  }

  /** An account that a running reconcile of its user can rely on. */
  predicate Agrees(busy: Busy, account: Password) {
    match busy
    case Liked(x, was, _) => account in {Of(x), Of(was)}
    case Moving(x, _) => account == Of(x)
    case Moved(x, b) => b != x ==> account == Of(x)
    case _ => true
  }

  /** Every tested secret whose references are still to move is accepted now. */
  ghost predicate Calm(s: State) {
    && (forall r :: 0 <= r < |s.rots| ==> RotCalm(s, r))
    && (forall u :: 0 <= u < |s.users| ==> Agrees(s.users[u].busy, s.users[u].account))
  }

  function NewAccount(mangles: bool, x: nat): Password {
    if mangles then Mangled else Of(x)
  }

  /** Changes an account between a test and the moves that rely on it. */
  predicate Disturbs(s: State, step: Step) {
    match step
    case Write(r, mangles) =>
      Holds(s, r) && MayWrite(s, r) && !Agrees(s.users[s.rots[r].user].busy, NewAccount(mangles, s.rots[r].newRef.value))
    case Rewrite(u, mangles) =>
      u < |s.users| && s.users[u].busy.Rewriting?
      && exists r :: 0 <= r < |s.rots| && s.rots[r].user == u && RotMoves(s.rots[r])
                     && NewAccount(mangles, s.users[u].busy.x) != Of(s.rots[r].newRef.value)
    case _ => false
  }

  // ---------------------------------------------------------------- exactly the disturbing steps end the calm

  lemma RotationStepCalm(s: State, step: Step, u: nat)
    requires Enabled(s, step) && Actor(step).Some? && Local(s, Actor(step).value) && u < |s.users| && Calm(s)
    requires !step.Write?
    ensures var s', r := Next(s, step), Actor(step).value;
            RotCalm(s', r) && |s'.users| == |s.users| && s'.users[u].account == s.users[u].account && s'.users[u].busy == s.users[u].busy
  {
    assert RotCalm(s, Actor(step).value);
  }

  lemma RotationKeepsCalm(s: State, step: Step)
    requires Good(s) && Enabled(s, step) && Actor(step).Some? && !step.Write? && Calm(s)
    ensures Calm(Next(s, step))
  {
    var s', r := Next(s, step), Actor(step).value;
    assert Local(s, r);
    StepFrame(s, step);
    forall u | 0 <= u < |s'.users|
      ensures Agrees(s'.users[u].busy, s'.users[u].account)
    {
      RotationStepCalm(s, step, u);
    }
    forall q | 0 <= q < |s'.rots|
      ensures RotCalm(s', q)
    {
      assert RotCalm(s, q) && Local(s, q);
      RotationStepCalm(s, step, s.rots[q].user);
    }
  }

  lemma WriteCalmIff(s: State, r: nat, mangles: bool)
    requires Good(s) && Enabled(s, Write(r, mangles)) && Calm(s)
    ensures Calm(Next(s, Write(r, mangles))) <==> !Disturbs(s, Write(r, mangles))
  {
    var s', v := Next(s, Write(r, mangles)), s.rots[r].user;
    assert Local(s, r);
    forall q | 0 <= q < |s'.rots|
      ensures RotCalm(s', q)
    {
      assert RotCalm(s, q) && Local(s, q);
      assert q != r && s.rots[q].user == v ==> !Unfinished(s.rots[q]);
    }
    assert forall u :: 0 <= u < |s.users| && u != v ==> s'.users[u] == s.users[u];
    assert s'.users[v].busy == s.users[v].busy;
  }

  lemma UserStepKeepsCalm(s: State, step: Step)
    requires Good(s) && Enabled(s, step) && Actor(step).None? && !step.Rewrite? && Calm(s)
    ensures Calm(Next(s, step))
  {
    var s' := Next(s, step);
    StepUserFrame(s, step);
    SameAccountOfAll(s, step);
    forall q | 0 <= q < |s'.rots|
      ensures RotCalm(s', q)
    {
      if q < |s.rots| {
        assert RotCalm(s, q) && Local(s, q) && s'.rots[q] == s.rots[q];
      }
    }
  }

  lemma SameAccountOfAll(s: State, step: Step)
    requires Enabled(s, step) && Actor(step).None? && !step.Rewrite?
    requires forall u :: 0 <= u < |s.users| ==> Agrees(s.users[u].busy, s.users[u].account)
    ensures var s' := Next(s, step);
            |s'.users| == |s.users| && forall u :: 0 <= u < |s.users| ==>
              s'.users[u].account == s.users[u].account && Agrees(s'.users[u].busy, s'.users[u].account)
  {
  }

  lemma RewriteCalmIff(s: State, u: nat, mangles: bool)
    requires Good(s) && Enabled(s, Rewrite(u, mangles)) && Calm(s)
    ensures Calm(Next(s, Rewrite(u, mangles))) <==> !Disturbs(s, Rewrite(u, mangles))
  {
    var s' := Next(s, Rewrite(u, mangles));
    assert s'.rots == s.rots && s'.users[u].account == NewAccount(mangles, s.users[u].busy.x);
    forall q | 0 <= q < |s.rots|
      ensures RotCalm(s', q) <==>
                !(s.rots[q].user == u && RotMoves(s.rots[q]) && s'.users[u].account != Of(s.rots[q].newRef.value))
    {
      assert RotCalm(s, q) && Local(s, q);
    }
  }

  /** A step ends the calm if and only if it disturbs, which can be told before it. */
  lemma CalmKeptIff(s: State, step: Step)
    requires Good(s) && Enabled(s, step) && Calm(s)
    ensures Calm(Next(s, step)) <==> !Disturbs(s, step)
  {
    if step.Write? {
      WriteCalmIff(s, step.r, step.mangles);
    } else if step.Rewrite? {
      RewriteCalmIff(s, step.u, step.mangles);
    } else if Actor(step).Some? {
      RotationKeepsCalm(s, step);
    } else {
      UserStepKeepsCalm(s, step);
    }
  }

  // ---------------------------------------------------------------- what the calm is for

  /** Writes an effective reference or the one of the BMC to a secret that the account rejects. */
  predicate WritesRejected(s: State, step: Step) {
    match step
    case MoveEffective(r) => Holds(s, r) && s.users[s.rots[r].user].account != Of(s.rots[r].newRef.value)
    case MoveBmc(r) => Holds(s, r) && s.users[s.rots[r].user].account != Of(s.rots[r].newRef.value)
    case PatchEffective(u) => u < |s.users| && s.users[u].busy.Moving? && s.users[u].account != Of(s.users[u].busy.x)
    case PatchBmc(u) =>
      u < |s.users| && s.users[u].busy.Moved? && s.users[u].busy.b != s.users[u].busy.x
      && s.users[u].account != Of(s.users[u].busy.x)
    case _ => false
  }

  /** The reference a step writes, if it writes one. */
  lemma OnlyTheseMoveReferences(s: State, step: Step)
    requires Enabled(s, step) && (Actor(step).Some? ==> Local(s, Actor(step).value))
    ensures var s' := Next(s, step);
            s'.bmcRef != s.bmcRef || (exists u :: 0 <= u < |s.users| && u < |s'.users| && s'.users[u].effective != s.users[u].effective)
            ==> step.MoveEffective? || step.MoveBmc? || step.PatchEffective? || step.PatchBmc?
  {
  }

  lemma CalmWritesAccepted(s: State, step: Step)
    requires Good(s) && Enabled(s, step) && Calm(s)
    ensures !WritesRejected(s, step)
  {
    if step.MoveEffective? || step.MoveBmc? {
      assert RotCalm(s, step.r);
    }
  }

  /** No step of the run changes an account between a test and the moves that rely on it. */
  predicate Undisturbed(s: State, steps: seq<Step>) {
    forall i :: 0 <= i < |steps| ==> !Disturbs(Run(s, steps[..i]), steps[i])
  }

  lemma {:induction false} UndisturbedRunIsCalm(s: State, steps: seq<Step>)
    requires Good(s) && Calm(s) && Undisturbed(s, steps)
    ensures Calm(Run(s, steps))
  {
    if steps != [] {
      var last := |steps| - 1;
      forall i | 0 <= i < last
        ensures !Disturbs(Run(s, steps[..last][..i]), steps[..last][i])
      {
        assert steps[..last][..i] == steps[..i];
      }
      UndisturbedRunIsCalm(s, steps[..last]);
      RunKeepsGood(s, steps[..last]);
      var before := Run(s, steps[..last]);
      if Enabled(before, steps[last]) {
        CalmKeptIff(before, steps[last]);
      }
    }
  }

  /**
   Along every run in which no account is changed between the test of a secret and the moves that rely on it,
   effective and BMC references move only to a secret that the account accepts at that moment.
   */
  lemma ReferencesMoveToAccepted(s: State, steps: seq<Step>, step: Step)
    requires Start(s) && Undisturbed(s, steps) && Enabled(Run(s, steps), step)
    ensures !WritesRejected(Run(s, steps), step)
  {
    UndisturbedRunIsCalm(s, steps);
    RunKeepsGood(s, steps);
    CalmWritesAccepted(Run(s, steps), step);
  }

  /** The steps that finish what was tested. */
  predicate Finishing(step: Step) {
    step.MoveSpec? || step.MoveEffective? || step.MoveBmc? || step.TryEffective? || step.PatchEffective? || step.PatchBmc?
  }

  predicate AllFinishing(steps: seq<Step>) {
    forall i :: 0 <= i < |steps| ==> Finishing(steps[i])
  }

  lemma AstrayRotation(s: State, r: nat) returns (steps: seq<Step>, last: Step)
    requires Good(s) && r < |s.rots| && !RotCalm(s, r)
    ensures AllFinishing(steps)
    ensures Finishing(last) && Enabled(Run(s, steps), last) && WritesRejected(Run(s, steps), last)
  {
    assert Local(s, r);
    if s.rots[r].at == Accepted {
      steps, last := [MoveSpec(r)], MoveEffective(r);
      assert [MoveSpec(r)][..0] == [];
      assert Run(s, steps) == After(Run(s, []), MoveSpec(r));
    } else {
      steps, last := [], if s.rots[r].at == SpecMoved then MoveEffective(r) else MoveBmc(r);
    }
  }

  lemma AstrayRefresh(s: State, u: nat) returns (steps: seq<Step>, last: Step)
    requires Good(s) && u < |s.users| && !Agrees(s.users[u].busy, s.users[u].account)
    ensures AllFinishing(steps)
    ensures Finishing(last) && Enabled(Run(s, steps), last) && WritesRejected(Run(s, steps), last)
  {
    assert UserOk(s, u);
    if s.users[u].busy.Liked? {
      steps, last := [TryEffective(u)], PatchEffective(u);
      assert [TryEffective(u)][..0] == [];
      assert Run(s, steps) == After(Run(s, []), TryEffective(u));
    } else {
      steps, last := [], if s.users[u].busy.Moving? then PatchEffective(u) else PatchBmc(u);
    }
  }

  /** Once an account was changed in between, finishing what was tested moves a reference to a rejected secret. */
  lemma DisturbedWritesRejected(s: State) returns (steps: seq<Step>, last: Step)
    requires Good(s) && !Calm(s)
    ensures AllFinishing(steps)
    ensures Finishing(last) && Enabled(Run(s, steps), last) && WritesRejected(Run(s, steps), last)
  {
    if r :| 0 <= r < |s.rots| && !RotCalm(s, r) {
      steps, last := AstrayRotation(s, r);
    } else {
      var u :| 0 <= u < |s.users| && !Agrees(s.users[u].busy, s.users[u].account);
      steps, last := AstrayRefresh(s, u);
    }
  }

  lemma {:induction false} FinishingIsUndisturbed(s: State, steps: seq<Step>)
    requires AllFinishing(steps)
    ensures Undisturbed(s, steps)
  {
  }

  ghost predicate NeverWritesRejected(s: State) {
    forall steps, last :: AllFinishing(steps) && Finishing(last) && Enabled(Run(s, steps), last) ==> !WritesRejected(Run(s, steps), last)
  }

  /** Finishing what was tested writes only accepted references if and only if nothing disturbed it. */
  lemma FinishingAcceptedIff(s: State)
    requires Good(s)
    ensures Calm(s) <==> NeverWritesRejected(s)
  {
    if Calm(s) {
      forall steps, last | AllFinishing(steps) && Finishing(last) && Enabled(Run(s, steps), last)
        ensures !WritesRejected(Run(s, steps), last)
      {
        FinishingIsUndisturbed(s, steps);
        UndisturbedRunIsCalm(s, steps);
        RunKeepsGood(s, steps);
        CalmWritesAccepted(Run(s, steps), last);
      }
    } else {
      var steps, last := DisturbedWritesRejected(s);
      assert AllFinishing(steps) && Finishing(last);
    }
  }
}
