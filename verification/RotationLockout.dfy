/**
 When an effective secret is sure to authenticate: exactly as long as some user authenticates whom no
 rotation is about to knock out. Rotations alone keep such a user; the reconcile of a user can lose it.
 */
module RotationLockout {
  import opened Options
  import opened Rotation
  import opened RotationSafety
  import opened RotationStore

  predicate Authenticates(s: State, u: nat) {
    && u < |s.users| && s.users[u].admin && s.users[u].here && s.users[u].effective.Some?
    && s.users[u].account == Of(s.users[u].effective.value)
    && Readable(s, s.users[u].effective.value)
  }

  predicate Open(s: State) {
    exists u :: 0 <= u < |s.users| && Authenticates(s, u)
  }

  // ---------------------------------------------------------------- steady users

  /** The BMC accepts the credential a rotation borrowed: its next write may mangle the account of its user. */
  predicate MayWrite(s: State, r: nat)
    requires r < |s.rots|
  {
    var rot := s.rots[r];
    Borrows(rot) && rot.at.peer < |s.users| && s.users[rot.at.peer].account == Of(rot.at.cred)
  }

  /** A rotation is about to move the effective reference to a secret that the account rejects by now. */
  predicate MovesAstray(s: State, r: nat)
    requires r < |s.rots|
  {
    var rot := s.rots[r];
    rot.at in {Accepted, SpecMoved} && rot.user < |s.users| && rot.newRef.Some? && s.users[rot.user].account != Of(rot.newRef.value)
  }

  predicate Threatens(s: State, r: nat)
    requires r < |s.rots|
  {
    MayWrite(s, r) || MovesAstray(s, r)
  }

  predicate Doomed(s: State, u: nat) {
    exists r :: 0 <= r < |s.rots| && s.rots[r].user == u && Threatens(s, r)
  }

  /** Authenticates, and no rotation is about to change that. */
  predicate Steady(s: State, u: nat) {
    Authenticates(s, u) && !Doomed(s, u)
  }

  predicate Firm(s: State) {
    exists u :: 0 <= u < |s.users| && Steady(s, u)
  }

  // ---------------------------------------------------------------- rotations keep a steady user

  lemma ThreatIsUnfinished(s: State, r: nat)
    requires r < |s.rots| && Local(s, r) && Threatens(s, r)
    ensures Unfinished(s.rots[r])
  {
  }

  /** Another user stays steady unless a changed account accepts a credential it borrowed. */
  lemma OthersStaySteady(s: State, s': State, a: nat, u: nat)
    requires a < |s.rots| && Frame(s, s', a) && s.rots[a].user < |s.users| && u != s.rots[a].user && Steady(s, u)
    requires var v := s.rots[a].user;
             forall r :: 0 <= r < |s.rots| && s.rots[r].user == u && Borrows(s.rots[r]) && s.rots[r].at.peer == v ==>
               s'.users[v].account != Of(s.rots[r].at.cred) || s'.users[v].account == s.users[v].account
    ensures Steady(s', u)
  {
    forall r | 0 <= r < |s'.rots| && s'.rots[r].user == u
      ensures !Threatens(s', r)
    {
      assert s'.rots[r] == s.rots[r] && !Threatens(s, r);
    }
  }

  /** Beginning leaves its user steady, or makes it depend on a peer that is. */
  lemma BeginKeepsFirm(s: State, r: nat, listing: seq<nat>, u: nat)
    requires Good(s) && Enabled(s, Begin(r, listing)) && Steady(s, u)
    ensures Firm(Next(s, Begin(r, listing)))
  {
    var s' := Next(s, Begin(r, listing));
    assert Local(s, r);
    StepFrame(s, Begin(r, listing));
    if u != s.rots[r].user {
      OthersStaySteady(s, s', r, u);
    } else if MayWrite(s', r) {
      var p := s'.rots[r].at.peer;
      PeerIsSteady(s, r, listing);
    } else {
      OnlyOneThreat(s, s', r);
      assert Steady(s', u);
    }
  }

  /** Rotations of a user other than the acting one are finished and threaten nothing. */
  lemma OnlyOneThreat(s: State, s': State, a: nat)
    requires Shapes(s) && a < |s.rots| && Frame(s, s', a) && !Threatens(s', a)
    ensures !Doomed(s', s.rots[a].user)
  {
    forall q | 0 <= q < |s'.rots| && s'.rots[q].user == s.rots[a].user
      ensures !Threatens(s', q)
    {
      if q != a {
        assert Local(s, q);
        assert !Unfinished(s.rots[q]);
      }
    }
  }

  lemma PeerIsSteady(s: State, r: nat, listing: seq<nat>)
    requires Good(s) && Enabled(s, Begin(r, listing)) && MayWrite(Next(s, Begin(r, listing)), r)
    ensures Firm(Next(s, Begin(r, listing)))
  {
    var s' := Next(s, Begin(r, listing));
    var p := s'.rots[r].at.peer;
    assert FindPeer(s, s.rots[r].user, listing) == Found(p, s'.rots[r].at.cred);
    forall q | 0 <= q < |s'.rots| && s'.rots[q].user == p
      ensures !Threatens(s', q)
    {
      assert Local(s, q);
      assert q != r && s'.rots[q] == s.rots[q] && !Unfinished(s.rots[q]);
    }
    assert Steady(s', p);
  }

  lemma WriteKeepsFirm(s: State, r: nat, mangles: bool, u: nat)
    requires Good(s) && Enabled(s, Write(r, mangles)) && Steady(s, u)
    ensures Steady(Next(s, Write(r, mangles)), u)
  {
    var s' := Next(s, Write(r, mangles));
    assert Local(s, r);
    StepFrame(s, Write(r, mangles));
    if u == s.rots[r].user {
      assert !Threatens(s, r);
      OnlyOneThreat(s, s', r);
    } else {
      forall q | 0 <= q < |s.rots| && s.rots[q].user == u && Borrows(s.rots[q]) && s.rots[q].at.peer == s.rots[r].user
        ensures s.rots[r].newRef != Some(s.rots[q].at.cred)
      {
        assert Lent(s, q);
      }
      OthersStaySteady(s, s', r, u);
    }
  }

  /** The other steps of a rotation change no account; the effective reference moves to the accepted secret. */
  lemma RotationKeepsSteady(s: State, step: Step, u: nat)
    requires Good(s) && Enabled(s, step) && Actor(step).Some? && !step.Begin? && !step.Write? && Steady(s, u)
    ensures Steady(Next(s, step), u)
  {
    var r := Actor(step).value;
    var s' := Next(s, step);
    assert Local(s, r) && UserOk(s, u);
    StepFrame(s, step);
    if u == s.rots[r].user {
      assert !Threatens(s, r);
      OwnStepKeepsSteady(s, step);
      OnlyOneThreat(s, s', r);
    } else {
      SameAccounts(s, step);
      OthersStaySteady(s, s', r, u);
    }
  }

  lemma SameAccounts(s: State, step: Step)
    requires Enabled(s, step) && Actor(step).Some? && !step.Write? && Local(s, Actor(step).value)
    ensures var v := s.rots[Actor(step).value].user; Next(s, step).users[v].account == s.users[v].account
  {
  }

  lemma OwnStepKeepsSteady(s: State, step: Step)
    requires Enabled(s, step) && Actor(step).Some? && !step.Begin? && !step.Write? && Local(s, Actor(step).value)
    requires Authenticates(s, s.rots[Actor(step).value].user) && !Threatens(s, Actor(step).value)
    ensures Authenticates(Next(s, step), s.rots[Actor(step).value].user) && !Threatens(Next(s, step), Actor(step).value)
  {
  }

  /** The steps of a user's reconcile that can cost a user its access. */
  predicate Risky(step: Step) {
    step.PatchEffective? || step.Rewrite?
  }

  lemma UserStepKeepsSteady(s: State, step: Step, u: nat)
    requires Good(s) && Enabled(s, step) && Actor(step).None? && !Risky(step) && Steady(s, u)
    ensures Steady(Next(s, step), u)
  {
    var s' := Next(s, step);
    assert UserOk(s, u);
    if step.Prune? {
      PruneSparesUser(s, step.u, step.refused, u);
    }
    StepUserFrame(s, step);
    SameAccess(s, step);
    forall q | 0 <= q < |s'.rots| && s'.rots[q].user == u
      ensures !Threatens(s', q)
    {
      assert q < |s.rots| ==> s'.rots[q] == s.rots[q] && !Threatens(s, q);
    }
  }

  lemma SameAccess(s: State, step: Step)
    requires Enabled(s, step) && Actor(step).None? && !Risky(step)
    ensures var s' := Next(s, step);
            |s'.users| == |s.users| && forall v :: 0 <= v < |s.users| ==>
              s'.users[v].account == s.users[v].account && s'.users[v].effective == s.users[v].effective
              && s'.users[v].admin == s.users[v].admin && s'.users[v].here == s.users[v].here
  {
  }

  lemma StepKeepsFirm(s: State, step: Step)
    requires Good(s) && Enabled(s, step) && !Risky(step) && Firm(s)
    ensures Firm(Next(s, step))
  {
    var u :| 0 <= u < |s.users| && Steady(s, u);
    if Actor(step).None? {
      UserStepKeepsSteady(s, step, u);
      StepUserFrame(s, step);
    } else {
      assert Local(s, Actor(step).value);
      StepFrame(s, step);
      if step.Begin? {
        BeginKeepsFirm(s, step.r, step.listing, u);
      } else if step.Write? {
        WriteKeepsFirm(s, step.r, step.mangles, u);
      } else {
        RotationKeepsSteady(s, step, u);
      }
    }
  }

  // ---------------------------------------------------------------- no lockout

  /** Each risky step of a run leaves a steady user. */
  predicate Careful(s: State, steps: seq<Step>) {
    forall i :: 0 <= i < |steps| && Risky(steps[i]) ==> Firm(Run(s, steps[..i + 1]))
  }

  lemma PrefixIsCareful(s: State, steps: seq<Step>)
    requires steps != [] && Careful(s, steps)
    ensures Careful(s, steps[..|steps| - 1])
    ensures Risky(steps[|steps| - 1]) ==> Firm(Run(s, steps))
  {
    var last := |steps| - 1;
    assert steps[..last + 1] == steps;
    forall i | 0 <= i < last && Risky(steps[..last][i])
      ensures Firm(Run(s, steps[..last][..i + 1]))
    {
      assert steps[..last][..i + 1] == steps[..i + 1];
    }
  }

  lemma {:induction false} CarefulRunIsFirm(s: State, steps: seq<Step>)
    requires Good(s) && Firm(s) && Careful(s, steps)
    ensures Firm(Run(s, steps))
  {
    if steps != [] {
      PrefixIsCareful(s, steps);
      var before, step := Run(s, steps[..|steps| - 1]), steps[|steps| - 1];
      if !Risky(step) {
        CarefulRunIsFirm(s, steps[..|steps| - 1]);
        RunKeepsGood(s, steps[..|steps| - 1]);
        if Enabled(before, step) {
          StepKeepsFirm(before, step);
        }
      }
    }
  }

  lemma StartIsFirm(s: State)
    requires Start(s) && Open(s)
    ensures Firm(s)
  {
    var u :| 0 <= u < |s.users| && Authenticates(s, u);
    assert Steady(s, u);
  }

  /**
   However rotations, cut-offs, mangled passwords, edits, pruning and reconciles interleave: as long as no
   risky step takes the last steady user away, some effective secret authenticates.
   */
  lemma NoLockout(s: State, steps: seq<Step>)
    requires Start(s) && Open(s) && Careful(s, steps)
    ensures Open(Run(s, steps))
  {
    StartIsFirm(s);
    CarefulRunIsFirm(s, steps);
    var u :| 0 <= u < |Run(s, steps).users| && Steady(Run(s, steps), u);
  }

  /** In particular no interleaving of rotations alone locks everybody out. */
  lemma RotationsNeverLockOut(s: State, steps: seq<Step>)
    requires Start(s) && Open(s) && forall i :: 0 <= i < |steps| ==> !Risky(steps[i])
    ensures Open(Run(s, steps))
  {
    NoLockout(s, steps);
  }

  // ---------------------------------------------------------------- without a steady user

  /** The threat of the lowest number among those to users that authenticate. */
  ghost predicate FirstThreat(s: State, r: nat) {
    && r < |s.rots| && Threatens(s, r) && Authenticates(s, s.rots[r].user)
    && forall q :: 0 <= q < r && Threatens(s, q) ==> !Authenticates(s, s.rots[q].user)
  }

  lemma {:induction false} SomeFirstThreat(s: State, n: nat) returns (r: nat)
    requires n < |s.rots| && Threatens(s, n) && Authenticates(s, s.rots[n].user)
    ensures FirstThreat(s, r) && r <= n
  {
    if q :| 0 <= q < n && Threatens(s, q) && Authenticates(s, s.rots[q].user) {
      r := SomeFirstThreat(s, q);
    } else {
      r := n;
    }
  }

  function Allowed(s: State): (users: set<nat>)
    ensures forall u: nat :: u in users <==> u < |s.users| && Authenticates(s, u)
  {
    set u: nat | u < |s.users| && Authenticates(s, u)
  }

  /** The next step towards knocking a user out. */
  function Knock(rot: Rot, r: nat): Step {
    match rot.at
    case Connected(_, _) => MakeSecret(r)
    case Created(_, _, _) => Persist(r)
    case Ready(_, _) => Write(r, true)
    case Accepted => MoveSpec(r)
    case _ => MoveEffective(r)
  }

  predicate Decisive(rot: Rot) {
    rot.at.Ready? || rot.at == SpecMoved
  }

  function Distance(rot: Rot): nat {
    match rot.at
    case Connected(_, _) => 2
    case Created(_, _, _) => 1
    case Accepted => 1
    case _ => 0
  }

  /** What the step leaves: other rotations and users, and the threat or its fulfilment. */
  lemma KnockStep(s: State, r: nat)
    requires r < |s.rots| && Local(s, r) && Threatens(s, r) && Authenticates(s, s.rots[r].user)
    requires MayWrite(s, r) ==> s.rots[r].at.peer != s.rots[r].user
    ensures var step, v := Knock(s.rots[r], r), s.rots[r].user;
            && Enabled(s, step) && Actor(step) == Some(r)
            && var s' := Next(s, step);
            && v < |s'.users|
            && (Decisive(s.rots[r]) ==> !Authenticates(s', v) && s'.users[v].account in {s.users[v].account, Mangled})
            && (!Decisive(s.rots[r]) ==>
                  Threatens(s', r) && Authenticates(s', v) && s'.users[v].account == s.users[v].account
                  && Distance(s'.rots[r]) < Distance(s.rots[r]))
  {
  }

  /** A threat to another user outlives the step. */
  lemma ThreatStays(s: State, s': State, r: nat, q: nat)
    requires Good(s) && FirstThreat(s, r) && r < |s.rots| && Frame(s, s', r)
    requires s'.users[s.rots[r].user].account in {s.users[s.rots[r].user].account, Mangled}
    requires q < |s.rots| && q != r && Threatens(s, q) && Authenticates(s, s.rots[q].user) && s.rots[q].user != s.rots[r].user
    ensures Threatens(s', q)
  {
    assert Lent(s, q) && Local(s, q) && Local(s, r);
    ThreatIsUnfinished(s, r);
  }

  lemma OthersKeepAccess(s: State, s': State, a: nat, u: nat)
    requires Shapes(s) && a < |s.rots| && Frame(s, s', a) && u != s.rots[a].user
    ensures Authenticates(s', u) <==> Authenticates(s, u)
  {
    if u < |s.users| {
      assert UserOk(s, u);
    }
  }

  lemma StaysUnsteady(s: State, s': State, r: nat)
    requires Good(s) && FirstThreat(s, r) && !Firm(s) && Frame(s, s', r) && r < |s.rots|
    requires s'.users[s.rots[r].user].account in {s.users[s.rots[r].user].account, Mangled}
    requires Threatens(s', r) || !Authenticates(s', s.rots[r].user)
    ensures !Firm(s')
  {
    forall u | 0 <= u < |s'.users|
      ensures !Steady(s', u)
    {
      if u == s.rots[r].user {
        assert s'.rots[r].user == u;
      } else {
        OthersKeepAccess(s, s', r, u);
        if Authenticates(s, u) {
          assert !Steady(s, u);
          var q :| 0 <= q < |s.rots| && s.rots[q].user == u && Threatens(s, q);
          ThreatStays(s, s', r, q);
          assert s'.rots[q].user == u;
        }
      }
    }
  }

  lemma StaysFirstThreat(s: State, s': State, r: nat)
    requires Good(s) && FirstThreat(s, r) && Frame(s, s', r) && r < |s.rots| && s.rots[r].user < |s.users|
    requires s'.users[s.rots[r].user].account == s.users[s.rots[r].user].account
    requires Threatens(s', r) && Authenticates(s', s.rots[r].user)
    ensures FirstThreat(s', r)
  {
    assert Local(s, r);
    forall q | 0 <= q < r && Threatens(s', q)
      ensures !Authenticates(s', s'.rots[q].user)
    {
      assert Local(s, q);
      SameThreat(s, s', r, q);
      if s.rots[q].user != s.rots[r].user {
        OthersKeepAccess(s, s', r, s.rots[q].user);
      }
    }
  }

  lemma SameThreat(s: State, s': State, r: nat, q: nat)
    requires r < |s.rots| && q < |s.rots| && q != r && Frame(s, s', r) && s.rots[r].user < |s.users|
    requires s'.users[s.rots[r].user].account == s.users[s.rots[r].user].account
    ensures Threatens(s', q) <==> Threatens(s, q)
  {
  }

  predicate AllRotation(steps: seq<Step>) {
    forall i :: 0 <= i < |steps| ==> Actor(steps[i]).Some?
  }

  /** Rotation steps that knock the threatened user out and leave everybody else unsteady. */
  lemma {:induction false} KnockOut(s: State, r: nat) returns (steps: seq<Step>)
    requires Good(s) && FirstThreat(s, r) && !Firm(s)
    ensures AllRotation(steps)
    ensures var end := Run(s, steps); Good(end) && !Firm(end) && Allowed(end) == Allowed(s) - {s.rots[r].user}
    decreases Distance(s.rots[r])
  {
    assert Local(s, r) && Lent(s, r);
    var step := Knock(s.rots[r], r);
    KnockStep(s, r);
    var s' := Next(s, step);
    StepFrame(s, step);
    StepKeepsGood(s, step);
    StaysUnsteady(s, s', r);
    AllowedAfter(s, s', r);
    assert [step][..0] == [];
    assert Run(s, [step]) == After(Run(s, []), step);
    if Decisive(s.rots[r]) {
      steps := [step];
    } else {
      StaysFirstThreat(s, s', r);
      var rest := KnockOut(s', r);
      RunConcat(s, [step], rest);
      steps := [step] + rest;
    }
  }

  lemma AllowedAfter(s: State, s': State, r: nat)
    requires Shapes(s) && r < |s.rots| && Frame(s, s', r) && Authenticates(s, s.rots[r].user)
    ensures Allowed(s') == if Authenticates(s', s.rots[r].user) then Allowed(s) else Allowed(s) - {s.rots[r].user}
  {
    forall u: nat
      ensures u != s.rots[r].user ==> (Authenticates(s', u) <==> Authenticates(s, u))
    {
      if u != s.rots[r].user {
        OthersKeepAccess(s, s', r, u);
      }
    }
  }

  /** Without a steady user, rotation steps alone can lock everybody out. */
  lemma {:induction false} LockoutFollows(s: State) returns (steps: seq<Step>)
    requires Good(s) && !Firm(s)
    ensures AllRotation(steps) && !Open(Run(s, steps))
    decreases |Allowed(s)|
  {
    steps := [];
    if Open(s) {
      var u :| 0 <= u < |s.users| && Authenticates(s, u);
      assert !Steady(s, u);
      var n :| 0 <= n < |s.rots| && s.rots[n].user == u && Threatens(s, n);
      var r := SomeFirstThreat(s, n);
      var first := KnockOut(s, r);
      var end := Run(s, first);
      assert s.rots[r].user in Allowed(s);
      var rest := LockoutFollows(end);
      RunConcat(s, first, rest);
      steps := first + rest;
    }
  }

  /** A steady user is exactly what rotations need to keep somebody in, whatever they do from here. */
  lemma FirmIff(s: State)
    requires Good(s)
    ensures Firm(s) <==> forall steps :: AllRotation(steps) ==> Open(Run(s, steps))
  {
    if Firm(s) {
      forall steps | AllRotation(steps)
        ensures Open(Run(s, steps))
      {
        CarefulRunIsFirm(s, steps);
        var u :| 0 <= u < |Run(s, steps).users| && Steady(Run(s, steps), u);
      }
    } else {
      var steps := LockoutFollows(s);
    }
  }

  /** Whether a patch of the effective reference leaves a steady user can be told before it. */
  lemma PatchKeepsFirmIff(s: State, u: nat)
    requires Good(s) && Enabled(s, PatchEffective(u))
    ensures Firm(Next(s, PatchEffective(u))) <==>
              || (exists v :: 0 <= v < |s.users| && v != u && Steady(s, v))
              || (s.users[u].admin && s.users[u].here && s.users[u].account == Of(s.users[u].busy.x) && !Doomed(s, u))
  {
    var s' := Next(s, PatchEffective(u));
    assert UserOk(s, u);
    forall v: nat | v < |s.users|
      ensures Doomed(s', v) <==> Doomed(s, v)
    {
      PatchKeepsThreats(s, u);
    }
    if exists v :: 0 <= v < |s.users| && v != u && Steady(s, v) {
      var v :| 0 <= v < |s.users| && v != u && Steady(s, v);
      assert Steady(s', v);
    }
    if s.users[u].admin && s.users[u].here && s.users[u].account == Of(s.users[u].busy.x) && !Doomed(s, u) {
      assert Steady(s', u);
    }
    if Firm(s') {
      var w :| 0 <= w < |s'.users| && Steady(s', w);
      assert w != u ==> Steady(s, w);
    }
  }

  lemma PatchKeepsThreats(s: State, u: nat)
    requires Enabled(s, PatchEffective(u))
    ensures forall r :: 0 <= r < |s.rots| ==> (Threatens(Next(s, PatchEffective(u)), r) <==> Threatens(s, r))
  {
  }

  /** A user that stays steady when the account of `u` becomes that of secret `x`, or nothing usable. */
  predicate SteadyBeside(s: State, u: nat, x: nat, mangles: bool, v: nat) {
    && v != u && Authenticates(s, v)
    && forall r :: 0 <= r < |s.rots| && s.rots[r].user == v ==>
         && !MovesAstray(s, r)
         && (Borrows(s.rots[r]) && s.rots[r].at.peer == u ==> mangles || s.rots[r].at.cred != x)
         && (Borrows(s.rots[r]) && s.rots[r].at.peer != u ==> !MayWrite(s, r))
  }

  /** The rewritten user itself: back on its effective secret, with no rotation that thinks otherwise. */
  predicate SteadyItself(s: State, u: nat, x: nat, mangles: bool)
    requires u < |s.users|
  {
    && !mangles && s.users[u].admin && s.users[u].here && s.users[u].effective == Some(x)
    && forall r :: 0 <= r < |s.rots| && s.rots[r].user == u ==>
         !MayWrite(s, r) && (s.rots[r].at in {Accepted, SpecMoved} ==> s.rots[r].newRef == Some(x))
  }

  lemma RewriteThreats(s: State, u: nat, mangles: bool, r: nat)
    requires Good(s) && Enabled(s, Rewrite(u, mangles)) && r < |s.rots|
    ensures var s', rot, x := Next(s, Rewrite(u, mangles)), s.rots[r], s.users[u].busy.x;
            && s'.rots == s.rots
            && (rot.user != u ==> (MovesAstray(s', r) <==> MovesAstray(s, r)))
            && (rot.user == u ==> (MovesAstray(s', r) <==> rot.at in {Accepted, SpecMoved} && (mangles || rot.newRef != Some(x))))
            && (Borrows(rot) ==>
                  (MayWrite(s', r) <==> if rot.at.peer == u then !mangles && rot.at.cred == x else MayWrite(s, r)))
  {
    assert Local(s, r) && Lent(s, r);
  }

  /** Whether a rewrite of an account leaves a steady user can be told before it. */
  lemma RewriteKeepsFirmIff(s: State, u: nat, mangles: bool)
    requires Good(s) && Enabled(s, Rewrite(u, mangles))
    ensures var x := s.users[u].busy.x;
            Firm(Next(s, Rewrite(u, mangles))) <==>
              (exists v :: 0 <= v < |s.users| && SteadyBeside(s, u, x, mangles, v)) || SteadyItself(s, u, x, mangles)
  {
    var s', x := Next(s, Rewrite(u, mangles)), s.users[u].busy.x;
    forall v | 0 <= v < |s.users| && v != u
      ensures Steady(s', v) <==> SteadyBeside(s, u, x, mangles, v)
    {
      RewriteBeside(s, u, mangles, v);
    }
    RewriteItself(s, u, mangles);
    if Firm(s') {
      var w :| 0 <= w < |s'.users| && Steady(s', w);
    }
  }

  lemma RewriteBeside(s: State, u: nat, mangles: bool, v: nat)
    requires Good(s) && Enabled(s, Rewrite(u, mangles)) && v < |s.users| && v != u
    ensures Steady(Next(s, Rewrite(u, mangles)), v) <==> SteadyBeside(s, u, s.users[u].busy.x, mangles, v)
  {
    var s' := Next(s, Rewrite(u, mangles));
    forall r | 0 <= r < |s.rots| && s.rots[r].user == v
      ensures Threatens(s', r) <==>
                || MovesAstray(s, r)
                || (Borrows(s.rots[r]) && s.rots[r].at.peer == u && !mangles && s.rots[r].at.cred == s.users[u].busy.x)
                || (Borrows(s.rots[r]) && s.rots[r].at.peer != u && MayWrite(s, r))
    {
      RewriteThreats(s, u, mangles, r);
    }
  }

  lemma RewriteItself(s: State, u: nat, mangles: bool)
    requires Good(s) && Enabled(s, Rewrite(u, mangles))
    ensures Steady(Next(s, Rewrite(u, mangles)), u) <==> SteadyItself(s, u, s.users[u].busy.x, mangles)
  {
    var s' := Next(s, Rewrite(u, mangles));
    assert UserOk(s, u);
    forall r | 0 <= r < |s.rots| && s.rots[r].user == u
      ensures Threatens(s', r) <==>
                MayWrite(s, r) || (s.rots[r].at in {Accepted, SpecMoved} && (mangles || s.rots[r].newRef != Some(s.users[u].busy.x)))
    {
      RewriteThreats(s, u, mangles, r);
      assert Lent(s, r);
    }
  }

  // ---------------------------------------------------------------- runs that lock everybody out

  /** At rest on an accepted effective secret, with another own secret to be named as the desired one. */
  predicate Editable(s: State, u: nat, x: nat) {
    && Authenticates(s, u) && s.users[u].busy == Resting && Mine(s, u, x) && s.users[u].effective != Some(x)
  }

  function Edited(s: State, u: nat, x: nat): State
    requires u < |s.users|
  {
    WithUser(s, u, s.users[u].(spec := Some(x), account := Of(x)))
  }

  function EditSteps(u: nat, x: nat): seq<Step> {
    [Edit(u, x), Look(u), TryDesired(u), Rewrite(u, false)]
  }

  lemma RunFourSteps(s: State, a: Step, b: Step, c: Step, d: Step)
    ensures Run(s, [a, b, c, d]) == After(After(After(After(s, a), b), c), d)
  {
    assert [a, b, c, d][..3] == [a, b, c] && [a, b, c][..2] == [a, b] && [a, b][..1] == [a] && [a][..0] == [];
    assert Run(s, [a]) == After(Run(s, []), a);
    assert Run(s, [a, b]) == After(Run(s, [a]), b);
    assert Run(s, [a, b, c]) == After(Run(s, [a, b]), c);
  }

  /** An edited reference makes the user's own reconcile take its account away from the effective secret. */
  lemma EditKnocksOut(s: State, u: nat, x: nat)
    requires Editable(s, u, x)
    ensures Run(s, EditSteps(u, x)) == Edited(s, u, x) && !Authenticates(Edited(s, u, x), u)
  {
    RunFourSteps(s, Edit(u, x), Look(u), TryDesired(u), Rewrite(u, false));
    var named := WithUser(s, u, s.users[u].(spec := Some(x)));
    assert After(s, Edit(u, x)) == named;
    var looked := WithUser(s, u, s.users[u].(spec := Some(x), busy := Looked(x, s.users[u].effective, s.bmcRef)));
    assert After(named, Look(u)) == looked;
    var rewriting := WithUser(s, u, s.users[u].(spec := Some(x), busy := Rewriting(x)));
    assert After(looked, TryDesired(u)) == rewriting;
    assert s.users[u].(spec := Some(x), account := Of(x)) == s.users[u].(spec := Some(x), account := Of(x), busy := Resting);
  }

  /** Two edits, without any rotation, lock out the only two users that authenticate. */
  lemma TwoEditsLockOut(s: State, u: nat, v: nat, x: nat, y: nat)
    requires u != v && Editable(s, u, x) && Editable(s, v, y)
    requires forall w :: 0 <= w < |s.users| && Authenticates(s, w) ==> w in {u, v}
    ensures !Open(Run(s, EditSteps(u, x) + EditSteps(v, y)))
  {
    EditKnocksOut(s, u, x);
    var between := Edited(s, u, x);
    EditKnocksOut(between, v, y);
    RunConcat(s, EditSteps(u, x), EditSteps(v, y));
    var end := Edited(between, v, y);
    forall w | 0 <= w < |end.users|
      ensures !Authenticates(end, w)
    {
      assert w !in {u, v} ==> end.users[w] == s.users[w] && !Authenticates(s, w);
      assert w == u ==> end.users[w] == between.users[w];
    }
  }
}
