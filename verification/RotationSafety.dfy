/**
 What every interleaving of rotation sub-steps, the reconciles of the users, edits, pruning and cut-offs
 keeps: references to secrets that exist, one new password per rotation, and a bound on rejected tests.
 */
module RotationSafety {
  import opened Options
  import opened Rotation

  // ---------------------------------------------------------------- invariants

  predicate Mine(s: State, u: nat, x: nat) {
    Readable(s, x) && s.secrets[x].owner in {None, Some(u)}
  }

  /** The secrets a running reconcile of a user works with. */
  predicate BusyOk(s: State, u: nat)
    requires u < |s.users|
  {
    match s.users[u].busy
    case Resting => true
    case Looked(x, e, _) => Mine(s, u, x) && (e.Some? ==> Mine(s, u, e.value))
    case Liked(x, was, _) => Mine(s, u, x) && Mine(s, u, was)
    case Moving(x, _) => Mine(s, u, x)
    case Moved(x, _) => Mine(s, u, x)
    case Rewriting(x) => Mine(s, u, x)
  }

  /** The references of a user name existing secrets that no other user owns. */
  predicate UserOk(s: State, u: nat)
    requires u < |s.users|
  {
    var user := s.users[u];
    && (user.spec.Some? ==> Mine(s, u, user.spec.value))
    && (user.effective.Some? ==> Mine(s, u, user.effective.value))
    && (user.bootstrap.Some? ==> Mine(s, u, user.bootstrap.value))
    && (user.account.Of? ==> user.account.secret < |s.secrets|)
    && BusyOk(s, u)
  }

  predicate Owned(s: State, u: nat, x: nat) {
    Readable(s, x) && s.secrets[x].owner == Some(u)
  }

  /** What the point of a rotation says about its user and its secret. */
  predicate Local(s: State, r: nat)
    requires r < |s.rots|
  {
    var rot := s.rots[r];
    && rot.user < |s.users| && s.users[rot.user].admin && s.users[rot.user].here
    && (rot.at != Idle ==> Unfinished(rot))
    && (Unfinished(rot) && rot.newRef.Some? ==> Owned(s, rot.user, rot.newRef.value))
    && (rot.newRef.None? ==> rot.sent == {} && (rot.at == Idle || rot.at.Connected? || rot.at.Created?))
    && (rot.newRef.Some? ==> rot.sent <= {rot.newRef.value} && !rot.at.Connected? && !rot.at.Created?)
    && (rot.at.Created? ==> Owned(s, rot.user, rot.at.made) && s.secrets[rot.at.made].rotation == Some(r))
  }

  predicate Unique(s: State) {
    forall r, q :: 0 <= r < q < |s.rots| && Unfinished(s.rots[r]) && Unfinished(s.rots[q]) ==> s.rots[r].user != s.rots[q].user
  }

  /** The secret a rotation is about to use. */
  predicate Uses(rot: Rot, x: nat) {
    rot.newRef == Some(x) || (rot.at.Created? && rot.at.made == x)
  }

  predicate Borrows(rot: Rot) {
    rot.at.Connected? || rot.at.Created? || rot.at.Ready?
  }

  /**
   A credential is borrowed from an idle peer: a rotation of that peer starts later and never uses the
   borrowed secret.
   */
  predicate Lent(s: State, r: nat)
    requires r < |s.rots|
  {
    var rot := s.rots[r];
    Borrows(rot) ==>
      && rot.at.peer < |s.users| && rot.at.peer != rot.user && rot.at.cred < |s.secrets|
      && s.users[rot.at.peer].admin && s.users[rot.at.peer].here
      && forall q :: 0 <= q < |s.rots| && s.rots[q].user == rot.at.peer && Unfinished(s.rots[q]) ==>
           r < q && !Uses(s.rots[q], rot.at.cred)
  }

  ghost predicate Shapes(s: State) {
    && (forall u :: 0 <= u < |s.users| ==> UserOk(s, u))
    && (forall r :: 0 <= r < |s.rots| ==> Local(s, r))
    && Unique(s)
    && Readable(s, s.bmcRef)
  }

  ghost predicate Good(s: State) {
    Shapes(s) && forall r :: 0 <= r < |s.rots| ==> Lent(s, r)
  }

  // ---------------------------------------------------------------- each step keeps them

  /** The rotation whose reconcile takes a step. */
  function Actor(step: Step): Option<nat> {
    match step
    case Begin(r, _) => Some(r)
    case Refuse(r) => Some(r)
    case MakeSecret(r) => Some(r)
    case Persist(r) => Some(r)
    case Write(r, _) => Some(r)
    case Test(r) => Some(r)
    case Count(r) => Some(r)
    case Judge(r, _) => Some(r)
    case MoveSpec(r) => Some(r)
    case MoveEffective(r) => Some(r)
    case MoveBmc(r) => Some(r)
    case Succeed(r) => Some(r)
    case Cut(r) => Some(r)
    case _ => None
  }

  /** What a step of rotation `a` leaves alone: other rotations, other users and existing secrets. */
  predicate Frame(s: State, s': State, a: nat)
    requires a < |s.rots|
  {
    && |s'.rots| == |s.rots| && |s'.users| == |s.users| && s.secrets <= s'.secrets
    && s'.rots[a].user == s.rots[a].user && Unfinished(s.rots[a])
    && (forall q :: 0 <= q < |s.rots| && q != a ==> s'.rots[q] == s.rots[q])
    && (forall v :: 0 <= v < |s.users| && v != s.rots[a].user ==> s'.users[v] == s.users[v])
    && (forall v :: 0 <= v < |s.users| ==>
          s'.users[v].admin == s.users[v].admin && s'.users[v].here == s.users[v].here && s'.users[v].busy == s.users[v].busy)
  }

  lemma StepFrame(s: State, step: Step)
    requires Enabled(s, step) && Actor(step).Some? && Local(s, Actor(step).value)
    ensures Frame(s, Next(s, step), Actor(step).value)
  {
  }

  /** What a step of a user leaves alone: existing rotations, other users and, unless it prunes, the secrets. */
  predicate UserFrame(s: State, s': State, step: Step) {
    && s.rots <= s'.rots && |s'.users| == |s.users| && |s'.secrets| == |s.secrets|
    && (forall q :: |s.rots| <= q < |s'.rots| ==> s'.rots[q].at == Idle && s'.rots[q].newRef.None? && s'.rots[q].sent == {})
    && (!step.Prune? ==> s'.secrets == s.secrets)
    && (forall v :: 0 <= v < |s.users| ==> s'.users[v].admin == s.users[v].admin && s'.users[v].here == s.users[v].here)
  }

  lemma StepUserFrame(s: State, step: Step)
    requires Enabled(s, step) && Actor(step).None?
    ensures UserFrame(s, Next(s, step), step)
  {
  }

  /** A secret that no other user owns survives every step, given that it is protected when its user is pruned. */
  lemma PruneSpares(s: State, u: nat, refused: set<nat>, v: nat, x: nat)
    requires Enabled(s, Prune(u, refused)) && Mine(s, v, x) && (u == v ==> Protected(s, u, x))
    ensures var s' := Next(s, Prune(u, refused)); Mine(s', v, x) && s'.secrets[x] == s.secrets[x]
  {
    assert !Prunable(s, u, x);
  }

  lemma PruneSparesBusy(s: State, v: nat, refused: set<nat>, u: nat)
    requires Enabled(s, Prune(v, refused)) && u < |s.users| && UserOk(s, u)
    ensures BusyOk(Next(s, Prune(v, refused)), u)
  {
    match s.users[u].busy
    case Resting =>
    case Looked(x, e, _) =>
      PruneSpares(s, v, refused, u, x);
      if e.Some? {
        PruneSpares(s, v, refused, u, e.value);
      }
    case Liked(x, was, _) =>
      PruneSpares(s, v, refused, u, x);
      PruneSpares(s, v, refused, u, was);
    case Moving(x, _) => PruneSpares(s, v, refused, u, x);
    case Moved(x, _) => PruneSpares(s, v, refused, u, x);
    case Rewriting(x) => PruneSpares(s, v, refused, u, x);
  }

  lemma PruneSparesUser(s: State, v: nat, refused: set<nat>, u: nat)
    requires Enabled(s, Prune(v, refused)) && u < |s.users| && UserOk(s, u)
    ensures UserOk(Next(s, Prune(v, refused)), u)
  {
    var user := s.users[u];
    PruneSparesBusy(s, v, refused, u);
    if user.spec.Some? {
      PruneSpares(s, v, refused, u, user.spec.value);
    }
    if user.effective.Some? {
      PruneSpares(s, v, refused, u, user.effective.value);
    }
    if user.bootstrap.Some? {
      PruneSpares(s, v, refused, u, user.bootstrap.value);
    }
  }

  /** A user keeps its references when it and the secrets stay as they are. */
  lemma SameUserOk(s: State, s': State, u: nat)
    requires u < |s.users| && |s'.users| == |s.users| && UserOk(s, u) && s'.users[u] == s.users[u] && s.secrets <= s'.secrets
    ensures UserOk(s', u)
  {
  }

  lemma RotationKeepsUser(s: State, step: Step, u: nat)
    requires Shapes(s) && Enabled(s, step) && Actor(step).Some? && u < |s.users|
    ensures UserOk(Next(s, step), u)
  {
    var r := Actor(step).value;
    assert UserOk(s, u) && Local(s, r);
    StepFrame(s, step);
    if u != s.rots[r].user || Next(s, step).users[u] == s.users[u] {
      SameUserOk(s, Next(s, step), u);
    } else {
      RotationChangesUser(s, step);
    }
  }

  lemma RotationChangesUser(s: State, step: Step)
    requires Enabled(s, step) && Actor(step).Some? && Local(s, Actor(step).value) && UserOk(s, s.rots[Actor(step).value].user)
    requires Next(s, step).users[s.rots[Actor(step).value].user] != s.users[s.rots[Actor(step).value].user]
    ensures UserOk(Next(s, step), s.rots[Actor(step).value].user)
  {
  }

  lemma UserStepKeepsUser(s: State, step: Step, u: nat)
    requires Shapes(s) && Enabled(s, step) && Actor(step).None? && !step.Prune? && u < |s.users|
    ensures UserOk(Next(s, step), u)
  {
    assert UserOk(s, u);
  }

  lemma UserKept(s: State, step: Step, u: nat)
    requires Shapes(s) && Enabled(s, step) && u < |Next(s, step).users|
    ensures UserOk(Next(s, step), u)
  {
    if Actor(step).Some? {
      assert Local(s, Actor(step).value);
      StepFrame(s, step);
      RotationKeepsUser(s, step, u);
    } else if step.Prune? {
      assert UserOk(s, u);
      PruneSparesUser(s, step.u, step.refused, u);
    } else {
      StepUserFrame(s, step);
      UserStepKeepsUser(s, step, u);
    }
  }

  lemma BmcKept(s: State, step: Step)
    requires Shapes(s) && Enabled(s, step)
    ensures Readable(Next(s, step), Next(s, step).bmcRef)
  {
    if Actor(step).Some? {
      assert Local(s, Actor(step).value);
    } else if step.PatchBmc? {
      assert UserOk(s, step.u);
    } else if step.Prune? {
      assert !Prunable(s, step.u, s.bmcRef);
    }
  }

  /** Pruning leaves the secret an unfinished rotation recorded, and the one it has not recorded yet. */
  lemma PruneSparesRotation(s: State, u: nat, refused: set<nat>, r: nat)
    requires Shapes(s) && Enabled(s, Prune(u, refused)) && r < |s.rots|
    ensures Local(Next(s, Prune(u, refused)), r)
  {
    var rot := s.rots[r];
    assert Local(s, r);
    if Unfinished(rot) && rot.newRef.Some? {
      PruneSpares(s, u, refused, rot.user, rot.newRef.value);
    }
    if rot.at.Created? {
      assert InFlight(s.rots, rot.user, r);
      assert !Prunable(s, u, rot.at.made);
    }
  }

  lemma OwnStepKeepsLocal(s: State, step: Step, r: nat)
    requires Enabled(s, step) && Actor(step) == Some(r) && Local(s, r)
    ensures Local(Next(s, step), r)
  {
  }

  lemma FrameKeepsLocal(s: State, s': State, a: nat, r: nat)
    requires a < |s.rots| && r < |s.rots| && a != r && Frame(s, s', a) && Local(s, r)
    ensures Local(s', r)
  {
  }

  lemma UserStepKeepsLocal(s: State, step: Step, r: nat)
    requires Shapes(s) && Enabled(s, step) && Actor(step).None? && r < |Next(s, step).rots|
    ensures Local(Next(s, step), r)
  {
    if step.Prune? {
      PruneSparesRotation(s, step.u, step.refused, r);
    } else {
      StepUserFrame(s, step);
      if r < |s.rots| {
        assert Local(s, r);
        LocalInUserFrame(s, Next(s, step), step, r);
      }
    }
  }

  lemma LocalInUserFrame(s: State, s': State, step: Step, r: nat)
    requires r < |s.rots| && Local(s, r) && UserFrame(s, s', step) && !step.Prune?
    ensures Local(s', r)
  {
  }

  lemma FrameKeepsUnique(s: State, s': State, a: nat)
    requires Unique(s) && a < |s.rots| && Frame(s, s', a)
    ensures Unique(s')
  {
  }

  lemma UniqueKept(s: State, step: Step)
    requires Shapes(s) && Enabled(s, step)
    ensures Unique(Next(s, step))
  {
    if Actor(step).Some? {
      assert Local(s, Actor(step).value);
      StepFrame(s, step);
      FrameKeepsUnique(s, Next(s, step), Actor(step).value);
    } else if !step.Create? {
      StepUserFrame(s, step);
      assert Next(s, step).rots == s.rots;
    }
  }

  /** A credential is borrowed from an idle peer. */
  lemma BeginIsLent(s: State, r: nat, listing: seq<nat>)
    requires Good(s) && Enabled(s, Begin(r, listing))
    ensures Lent(Next(s, Begin(r, listing)), r)
  {
    var s' := Next(s, Begin(r, listing));
    assert Local(s, r);
    if Borrows(s'.rots[r]) {
      assert UserOk(s, s'.rots[r].at.peer);
    }
  }

  lemma OwnStepKeepsLent(s: State, step: Step, r: nat)
    requires Good(s) && Enabled(s, step) && Actor(step) == Some(r) && !step.Begin?
    ensures Lent(Next(s, step), r)
  {
    assert Lent(s, r) && Local(s, r);
    StepFrame(s, step);
    StepKeepsBorrowed(s, step, r);
  }

  /** Only the beginning of a reconcile borrows. */
  lemma StepKeepsBorrowed(s: State, step: Step, r: nat)
    requires Enabled(s, step) && Actor(step) == Some(r) && Local(s, r) && !step.Begin?
    ensures var rot, rot' := s.rots[r], Next(s, step).rots[r];
            Borrows(rot') ==> Borrows(rot) && rot'.at.peer == rot.at.peer && rot'.at.cred == rot.at.cred
  {
  }

  /** A step of a rotation uses at most a secret made just now. */
  lemma StepUsesFresh(s: State, step: Step)
    requires Enabled(s, step) && Actor(step).Some? && Local(s, Actor(step).value)
    ensures var s', a := Next(s, step), Actor(step).value;
            forall x: nat :: x < |s.secrets| && Uses(s'.rots[a], x) ==> Uses(s.rots[a], x)
  {
  }

  lemma LentInFrame(s: State, s': State, a: nat, r: nat)
    requires a < |s.rots| && r < |s.rots| && a != r && Frame(s, s', a) && Lent(s, r)
    requires forall x: nat :: x < |s.secrets| && Uses(s'.rots[a], x) ==> Uses(s.rots[a], x)
    ensures Lent(s', r)
  {
  }

  lemma OtherStepKeepsLent(s: State, step: Step, r: nat)
    requires Good(s) && Enabled(s, step) && Actor(step).Some? && Actor(step) != Some(r) && r < |s.rots|
    ensures Lent(Next(s, step), r)
  {
    assert Lent(s, r) && Local(s, Actor(step).value);
    StepFrame(s, step);
    StepUsesFresh(s, step);
    LentInFrame(s, Next(s, step), Actor(step).value, r);
  }

  lemma UserStepKeepsLent(s: State, step: Step, r: nat)
    requires Good(s) && Enabled(s, step) && Actor(step).None? && r < |Next(s, step).rots|
    ensures Lent(Next(s, step), r)
  {
    StepUserFrame(s, step);
    if r < |s.rots| {
      assert Lent(s, r);
      LentInUserFrame(s, Next(s, step), step, r);
    }
  }

  lemma LentInUserFrame(s: State, s': State, step: Step, r: nat)
    requires r < |s.rots| && Lent(s, r) && UserFrame(s, s', step)
    ensures Lent(s', r)
  {
  }

  lemma RotKept(s: State, step: Step, r: nat)
    requires Good(s) && Enabled(s, step) && r < |Next(s, step).rots|
    ensures Local(Next(s, step), r) && Lent(Next(s, step), r)
  {
    if Actor(step).None? {
      UserStepKeepsLocal(s, step, r);
      UserStepKeepsLent(s, step, r);
    } else if Actor(step) == Some(r) {
      assert Local(s, r);
      OwnStepKeepsLocal(s, step, r);
      if step.Begin? {
        BeginIsLent(s, r, step.listing);
      } else {
        OwnStepKeepsLent(s, step, r);
      }
    } else {
      assert Local(s, Actor(step).value) && Local(s, r);
      StepFrame(s, step);
      FrameKeepsLocal(s, Next(s, step), Actor(step).value, r);
      OtherStepKeepsLent(s, step, r);
    }
  }

  lemma StepKeepsGood(s: State, step: Step)
    requires Good(s) && Enabled(s, step)
    ensures Good(Next(s, step))
  {
    var s' := Next(s, step);
    forall u | 0 <= u < |s'.users|
      ensures UserOk(s', u)
    {
      UserKept(s, step, u);
    }
    forall r | 0 <= r < |s'.rots|
      ensures Local(s', r) && Lent(s', r)
    {
      RotKept(s, step, r);
    }
    BmcKept(s, step);
    UniqueKept(s, step);
  }

  // ---------------------------------------------------------------- runs

  /** A step that does not find its rotation at the right point does nothing. */
  function After(s: State, step: Step): State {
    if Enabled(s, step) then Next(s, step) else s
  }

  function Run(s: State, steps: seq<Step>): State {
    if steps == [] then s else After(Run(s, steps[..|steps| - 1]), steps[|steps| - 1])
  }

  lemma {:induction false} RunConcat(s: State, first: seq<Step>, second: seq<Step>)
    ensures Run(s, first + second) == Run(Run(s, first), second)
  {
    if second == [] {
      assert first + second == first;
    } else {
      RunConcat(s, first, second[..|second| - 1]);
      assert (first + second)[..|first + second| - 1] == first + second[..|second| - 1];
    }
  }

  lemma {:induction false} RunKeepsGood(s: State, steps: seq<Step>)
    requires Good(s)
    ensures Good(Run(s, steps))
  {
    if steps != [] {
      RunKeepsGood(s, steps[..|steps| - 1]);
      var before := Run(s, steps[..|steps| - 1]);
      if Enabled(before, steps[|steps| - 1]) {
        StepKeepsGood(before, steps[|steps| - 1]);
      }
    }
  }

  /** No rotation and no reconcile of a user yet, and references that exist. */
  ghost predicate Start(s: State) {
    && s.rots == []
    && (forall u :: 0 <= u < |s.users| ==> UserOk(s, u) && s.users[u].busy == Resting)
    && Readable(s, s.bmcRef)
  }

  predicate Dangles(s: State, ref: Option<nat>) {
    ref.Some? && !Readable(s, ref.value)
  }

  /** The BMC, the users and the unfinished rotations name secrets that exist. */
  ghost predicate NothingDangles(s: State) {
    && Readable(s, s.bmcRef)
    && (forall u :: 0 <= u < |s.users| ==>
          var user := s.users[u]; !Dangles(s, user.spec) && !Dangles(s, user.effective) && !Dangles(s, user.bootstrap))
    && (forall r :: 0 <= r < |s.rots| && Unfinished(s.rots[r]) ==>
          var rot := s.rots[r]; !Dangles(s, rot.newRef) && (rot.at.Created? ==> Readable(s, rot.at.made)))
  }

  lemma ShapesDangleNothing(s: State)
    requires Shapes(s)
    ensures NothingDangles(s)
  {
    forall u | 0 <= u < |s.users|
      ensures var user := s.users[u]; !Dangles(s, user.spec) && !Dangles(s, user.effective) && !Dangles(s, user.bootstrap)
    {
      assert UserOk(s, u);
    }
    forall r | 0 <= r < |s.rots| && Unfinished(s.rots[r])
      ensures var rot := s.rots[r]; !Dangles(s, rot.newRef) && (rot.at.Created? ==> Readable(s, rot.at.made))
    {
      assert Local(s, r);
    }
  }

  /** No interleaving of pruning with rotations deletes a secret that is still referenced or about to be. */
  lemma NoDanglingCredential(s: State, steps: seq<Step>)
    requires Start(s)
    ensures NothingDangles(Run(s, steps))
  {
    RunKeepsGood(s, steps);
    ShapesDangleNothing(Run(s, steps));
  }

  // ---------------------------------------------------------------- one new password

  lemma StepKeepsRotation(s: State, step: Step, r: nat)
    requires Good(s) && Enabled(s, step) && r < |s.rots|
    ensures var rot, rot' := s.rots[r], Next(s, step).rots[r];
            && rot'.user == rot.user
            && (rot.newRef.Some? ==> rot'.newRef == rot.newRef)
            && (!Unfinished(rot) ==> rot' == rot)
  {
    assert Local(s, r);
  }

  /** Along every run a recorded secret is never replaced, and a finished rotation never changes. */
  lemma {:induction false} RotationIsStable(s: State, steps: seq<Step>, r: nat)
    requires Good(s) && r < |s.rots|
    ensures var end := Run(s, steps);
            && r < |end.rots|
            && end.rots[r].user == s.rots[r].user
            && (s.rots[r].newRef.Some? ==> end.rots[r].newRef == s.rots[r].newRef)
            && (!Unfinished(s.rots[r]) ==> end.rots[r] == s.rots[r])
  {
    if steps != [] {
      RotationIsStable(s, steps[..|steps| - 1], r);
      RunKeepsGood(s, steps[..|steps| - 1]);
      var before := Run(s, steps[..|steps| - 1]);
      if Enabled(before, steps[|steps| - 1]) {
        StepKeepsRotation(before, steps[|steps| - 1], r);
      }
    }
  }

  /** All passwords a rotation ever sent to the BMC are the one of the secret it had recorded. */
  lemma OnePasswordPerRotation(s: State, steps: seq<Step>, r: nat)
    requires Start(s) && r < |Run(s, steps).rots|
    ensures var rot := Run(s, steps).rots[r]; rot.sent == {} || (rot.newRef.Some? && rot.sent == {rot.newRef.value})
  {
    RunKeepsGood(s, steps);
    assert Local(Run(s, steps), r);
  }

  // ---------------------------------------------------------------- rejected tests

  function Excess(n: nat, limit: nat): nat {
    if n > limit then n - limit else 0
  }

  /** Each rejected test is counted or cut off, and the count passes the limit only by cut-offs. */
  predicate Accounted(rot: Rot, max: nat)
    requires max > 0
  {
    var k, n, t := rot.cuts, rot.rejected, rot.retries;
    if rot.at == Rejected then n >= t + 1 && k >= n - 1 - t + Excess(t, max - 1)
    else if rot.at == Counted || !Unfinished(rot) then n >= t && k >= n - t + Excess(t, max)
    else n >= t && k >= n - t + Excess(t, max - 1)
  }

  lemma OwnStepKeepsAccounted(s: State, step: Step, r: nat, max: nat)
    requires Enabled(s, step) && max > 0 && Actor(step) == Some(r) && Local(s, r)
    requires step.Judge? ==> step.max == max
    requires Accounted(s.rots[r], max)
    ensures Accounted(Next(s, step).rots[r], max)
  {
  }

  lemma StepKeepsAccounted(s: State, step: Step, r: nat, max: nat)
    requires Shapes(s) && Enabled(s, step) && max > 0 && r < |Next(s, step).rots|
    requires step.Judge? ==> step.max == max
    requires r < |s.rots| ==> Accounted(s.rots[r], max)
    ensures Accounted(Next(s, step).rots[r], max)
  {
    if Actor(step) == Some(r) {
      assert Local(s, r);
      OwnStepKeepsAccounted(s, step, r, max);
    } else if Actor(step).Some? {
      assert Local(s, Actor(step).value);
      StepFrame(s, step);
    }
  }

  lemma {:induction false} RunKeepsAccounted(s: State, steps: seq<Step>, r: nat, max: nat)
    requires Start(s) && max > 0 && r < |Run(s, steps).rots|
    requires forall i :: 0 <= i < |steps| && steps[i].Judge? ==> steps[i].max == max
    ensures Accounted(Run(s, steps).rots[r], max)
  {
    if steps != [] {
      var before := Run(s, steps[..|steps| - 1]);
      RunKeepsGood(s, steps[..|steps| - 1]);
      if r < |before.rots| {
        RunKeepsAccounted(s, steps[..|steps| - 1], r, max);
      }
      if Enabled(before, steps[|steps| - 1]) {
        StepKeepsAccounted(before, steps[|steps| - 1], r, max);
      }
    }
  }

  /** A rotation sees at most `max` rejected tests, and one more for each of them whose verdict is cut off. */
  lemma RejectedTestsAreBounded(s: State, steps: seq<Step>, r: nat, max: nat)
    requires Start(s) && max > 0 && r < |Run(s, steps).rots|
    requires forall i :: 0 <= i < |steps| && steps[i].Judge? ==> steps[i].max == max
    ensures var rot := Run(s, steps).rots[r]; rot.rejected <= max + rot.cuts
  {
    RunKeepsAccounted(s, steps, r, max);
  }
}
