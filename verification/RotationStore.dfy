/**
 The controllers' own code over the stored objects: peer search, one reconcile of a rotation, the refresh
 of an effective secret and pruning, each tied to the steps of the rotation protocol.
 */
module RotationStore {
  import opened Options
  import opened Rotation
  import opened RotationSafety

  /** The account change and its test. */
  function Tried(s: State, r: nat, mangles: bool): State {
    After(After(s, Write(r, mangles)), Test(r))
  }

  /** What follows a rejected test. */
  function Retried(s: State, r: nat, max: nat): State {
    After(After(s, Count(r)), Judge(r, max))
  }

  /** What follows an accepted test. */
  function Promotion(s: State, r: nat): State {
    After(After(After(After(s, MoveSpec(r)), MoveEffective(r)), MoveBmc(r)), Succeed(r))
  }

  /** A new secret is made and recorded, unless one is recorded already. */
  function Prepared(s: State, r: nat): State {
    After(After(s, MakeSecret(r)), Persist(r))
  }

  /** One reconcile that is not cut off; steps that do not apply are skipped. */
  function Attempt(s: State, r: nat, listing: seq<nat>, mangles: bool, max: nat): State {
    Promotion(Retried(Tried(Prepared(After(s, Begin(r, listing)), r), r, mangles), r, max), r)
  }

  /** The two tests of a user's reconcile. */
  function Tested(s: State, u: nat): State {
    After(After(After(s, Look(u)), TryDesired(u)), TryEffective(u))
  }

  function Refreshed(s: State, u: nat): State {
    After(After(s, PatchEffective(u)), PatchBmc(u))
  }

  function Applied(s: State, u: nat, mangles: bool): State {
    After(After(s, Rewrite(u, mangles)), Leave(u))
  }

  /** One reconcile of a user that is not cut off; steps that do not apply are skipped. */
  function UserAttempt(s: State, u: nat, mangles: bool): State {
    Applied(Refreshed(Tested(s, u), u), u, mangles)
  }

  ghost predicate Reaches(s: State, s': State) {
    exists steps :: Run(s, steps) == s'
  }

  lemma ReachesAfter(s: State, s': State, step: Step)
    requires Reaches(s, s')
    ensures Reaches(s, After(s', step))
  {
    var steps :| Run(s, steps) == s';
    assert (steps + [step])[..|steps|] == steps;
    assert Run(s, steps + [step]) == After(s', step);
  }

  /** A reconcile is a run of the protocol, so everything proved of runs holds of it. */
  lemma AttemptIsRun(s: State, r: nat, listing: seq<nat>, mangles: bool, max: nat)
    ensures Reaches(s, Attempt(s, r, listing, mangles, max))
  {
    assert Run(s, []) == s;
    ReachesAfter(s, s, Begin(r, listing));
    var s1 := After(s, Begin(r, listing));
    ReachesAfter(s, s1, MakeSecret(r));
    ReachesAfter(s, After(s1, MakeSecret(r)), Persist(r));
    var s2 := Prepared(s1, r);
    ReachesAfter(s, s2, Write(r, mangles));
    ReachesAfter(s, After(s2, Write(r, mangles)), Test(r));
    var s3 := Tried(s2, r, mangles);
    ReachesAfter(s, s3, Count(r));
    ReachesAfter(s, After(s3, Count(r)), Judge(r, max));
    PromotionIsRun(s, Retried(s3, r, max), r);
  }

  lemma UserAttemptIsRun(s: State, u: nat, mangles: bool)
    ensures Reaches(s, UserAttempt(s, u, mangles))
  {
    assert Run(s, []) == s;
    ReachesAfter(s, s, Look(u));
    var s1 := After(s, Look(u));
    ReachesAfter(s, s1, TryDesired(u));
    ReachesAfter(s, After(s1, TryDesired(u)), TryEffective(u));
    var s2 := Tested(s, u);
    ReachesAfter(s, s2, PatchEffective(u));
    ReachesAfter(s, After(s2, PatchEffective(u)), PatchBmc(u));
    var s3 := Refreshed(s2, u);
    ReachesAfter(s, s3, Rewrite(u, mangles));
    ReachesAfter(s, After(s3, Rewrite(u, mangles)), Leave(u));
  }

  lemma PromotionIsRun(s: State, s': State, r: nat)
    requires Reaches(s, s')
    ensures Reaches(s, Promotion(s', r))
  {
    ReachesAfter(s, s', MoveSpec(r));
    var s1 := After(s', MoveSpec(r));
    ReachesAfter(s, s1, MoveEffective(r));
    var s2 := After(s1, MoveEffective(r));
    ReachesAfter(s, s2, MoveBmc(r));
    ReachesAfter(s, After(s2, MoveBmc(r)), Succeed(r));
  }

  /** The first listed user that settles the search is idle, and its account accepts its effective secret. */
  predicate PeerWorks(s: State, r: nat, listing: seq<nat>) {
    && r < |s.rots| && s.rots[r].user < |s.users|
    && exists i :: 0 <= i < |listing| && SettlesFirst(s, s.rots[r].user, listing, i) && !Active(s.rots, listing[i])
                   && s.users[listing[i]].account == Of(s.users[listing[i]].effective.value)
  }

  /** About to change the password of its account, with a peer whose credential the BMC accepts. */
  predicate CanWrite(s: State, r: nat) {
    && Holds(s, r) && Unfinished(s.rots[r]) && s.rots[r].at.Ready? && s.rots[r].at.peer < |s.users|
    && s.users[s.rots[r].at.peer].account == Of(s.rots[r].at.cred)
    && Readable(s, s.rots[r].newRef.value)
  }

  lemma PreparedCanWrite(s: State, r: nat, listing: seq<nat>)
    requires Shapes(s) && PeerWorks(s, r, listing) && Unfinished(s.rots[r]) && s.rots[r].at == Idle
    ensures CanWrite(Prepared(After(s, Begin(r, listing)), r), r)
  {
    FindPeerIff(s, s.rots[r].user, listing);
    FoundCanWrite(s, r, listing);
  }

  lemma FoundCanWrite(s: State, r: nat, listing: seq<nat>)
    requires Shapes(s) && r < |s.rots| && Unfinished(s.rots[r]) && s.rots[r].at == Idle
    requires var peer := FindPeer(s, s.rots[r].user, listing); peer.Found? && s.users[peer.peer].account == Of(peer.cred)
    ensures CanWrite(Prepared(After(s, Begin(r, listing)), r), r)
  {
    assert Local(s, r);
  }

  predicate InForce(s: State, r: nat) {
    && Holds(s, r) && s.rots[r].phase == Succeeded
    && var user, x := s.users[s.rots[r].user], s.rots[r].newRef.value;
    && user.spec == Some(x) && user.effective == Some(x) && user.account == Of(x) && s.bmcRef == x && Readable(s, x)
  }

  /** The account accepted the recorded secret. */
  predicate Passed(s: State, r: nat) {
    && Holds(s, r) && s.rots[r].at == Accepted && Readable(s, s.rots[r].newRef.value)
    && s.users[s.rots[r].user].account == Of(s.rots[r].newRef.value)
  }

  lemma WrittenPasses(s: State, r: nat, max: nat)
    requires CanWrite(s, r)
    ensures Passed(Retried(Tried(s, r, false), r, max), r)
  {
    assert Retried(Tried(s, r, false), r, max) == Tried(s, r, false);
  }

  lemma PassedIsInForce(s: State, r: nat)
    requires Passed(s, r)
    ensures InForce(Promotion(s, r), r)
  {
    var moved := After(After(s, MoveSpec(r)), MoveEffective(r));
    assert moved.rots[r].at == EffectiveMoved;
  }

  /** A reconcile that is not cut off, through a working peer, puts the new secret in force. */
  lemma CalmAttemptSucceeds(s: State, r: nat, listing: seq<nat>, max: nat)
    requires Good(s) && PeerWorks(s, r, listing) && Unfinished(s.rots[r]) && s.rots[r].at == Idle
    ensures InForce(Attempt(s, r, listing, false, max), r)
  {
    PreparedCanWrite(s, r, listing);
    var prepared := Prepared(After(s, Begin(r, listing)), r);
    WrittenPasses(prepared, r, max);
    PassedIsInForce(Retried(Tried(prepared, r, false), r, max), r);
  }

  /** The stored objects, changed in place. */
  class Store {
    var users: seq<User>
    var rots: seq<Rot>
    var secrets: seq<Secret>
    var bmcRef: nat

    constructor (users: seq<User>, secrets: seq<Secret>, bmcRef: nat)
      ensures View() == State(users, [], secrets, bmcRef)
    {
      this.users, this.rots, this.secrets, this.bmcRef := users, [], secrets, bmcRef;
    }

    function View(): State
      reads this
    {
      State(users, rots, secrets, bmcRef)
    }

    method FindPeerWithSecret(u: nat, listing: seq<nat>) returns (peer: Peer)
      ensures peer == FindPeer(View(), u, listing)
    {
      var active: set<nat> := {};
      for r := 0 to |rots|
        invariant forall p :: p in active <==> Active(rots[..r], p)
      {
        assert rots[..r + 1] == rots[..r] + [rots[r]];
        ActiveSnoc(rots[..r], rots[r]);
        if rots[r].phase != Succeeded && rots[r].phase != Failed {
          active := active + {rots[r].user};
        }
      }
      assert rots[..|rots|] == rots;
      for i := 0 to |listing|
        invariant FindPeer(View(), u, listing) == FindPeer(View(), u, listing[i..])
      {
        assert listing[i..][1..] == listing[i + 1..];
        var p := listing[i];
        if !Candidate(View(), u, p) {
          continue;
        }
        if p in active {
          return Requeue;
        }
        var cred := users[p].effective.value;
        if cred < |secrets| && secrets[cred].live {
          return Found(p, cred);
        }
      }
      return NoPeer;
    }

    method SetFailed(r: nat)
      requires r < |rots|
      modifies this`rots
      ensures rots == old(rots)[r := old(rots[r]).(phase := Failed, at := Idle)]
    {
      rots := rots[r := rots[r].(phase := Failed, at := Idle)];
    }

    /** The first part of a reconcile: the peer, its client, and the new secret. */
    method Connect(r: nat, listing: seq<nat>)
      modifies this`rots
      ensures View() == After(old(View()), Begin(r, listing))
    {
      if r >= |rots| || rots[r].phase == Succeeded || rots[r].phase == Failed || rots[r].at != Idle {
        return;
      }
      var peer := FindPeerWithSecret(rots[r].user, listing);
      match peer {
        case Requeue => rots := rots[r := rots[r].(phase := InProgress)];
        case NoPeer => SetFailed(r);
        case Found(p, cred) =>
          rots := rots[r := rots[r].(phase := InProgress)];
          if rots[r].newRef.None? {
            rots := rots[r := rots[r].(at := Connected(p, cred))];
          } else if Readable(View(), rots[r].newRef.value) {
            rots := rots[r := rots[r].(at := Ready(p, cred))];
          }
      }
    }

    method PrepareSecret(r: nat)
      modifies this`rots, this`secrets
      ensures View() == Prepared(old(View()), r)
    {
      if r < |rots| && (rots[r].at.Connected? || rots[r].at.Created?) {
        if rots[r].at.Connected? {
          secrets := secrets + [Secret(Some(rots[r].user), Some(r), false, true)];
          rots := rots[r := rots[r].(at := Created(rots[r].at.peer, rots[r].at.cred, |secrets| - 1))];
        }
        var point := rots[r].at;
        rots := rots[r := rots[r].(newRef := Some(point.made), at := Ready(point.peer, point.cred))];
      }
    }

    /** Changes the account through the peer and tests the new credential. */
    method ChangePassword(r: nat, mangles: bool)
      modifies this`rots, this`users
      ensures View() == Tried(old(View()), r, mangles)
    {
      if r >= |rots| || rots[r].user >= |users| || rots[r].newRef.None? {
        return;
      }
      var u, x := rots[r].user, rots[r].newRef.value;
      if rots[r].at.Ready? {
        var p, cred := rots[r].at.peer, rots[r].at.cred;
        if p >= |users| || users[p].account != Of(cred) {
          rots := rots[r := rots[r].(at := Idle)];
          return;
        }
        users := users[u := users[u].(account := if mangles then Mangled else Of(x))];
        rots := rots[r := rots[r].(at := Written, sent := rots[r].sent + {x})];
      }
      if rots[r].at == Written {
        if users[u].account == Of(x) {
          rots := rots[r := rots[r].(at := Accepted)];
        } else {
          rots := rots[r := rots[r].(at := Rejected, rejected := rots[r].rejected + 1)];
        }
      }
    }

    method CountRejection(r: nat, max: nat)
      modifies this`rots
      ensures View() == Retried(old(View()), r, max)
    {
      if r >= |rots| {
        return;
      }
      if rots[r].at == Rejected {
        rots := rots[r := rots[r].(at := Counted, retries := rots[r].retries + 1)];
      }
      if rots[r].at == Counted {
        if rots[r].retries >= max {
          SetFailed(r);
        } else {
          rots := rots[r := rots[r].(at := Idle)];
        }
      }
    }

    /** Moves the references of the user to the accepted secret. */
    method PromoteUser(r: nat)
      modifies this`rots, this`users
      ensures View() == After(After(old(View()), MoveSpec(r)), MoveEffective(r))
    {
      if r >= |rots| || rots[r].user >= |users| || rots[r].newRef.None? {
        return;
      }
      var u, x := rots[r].user, rots[r].newRef.value;
      if rots[r].at == Accepted {
        users := users[u := users[u].(spec := Some(x))];
        rots := rots[r := rots[r].(at := SpecMoved)];
      }
      if rots[r].at == SpecMoved {
        users := users[u := users[u].(effective := Some(x))];
        rots := rots[r := rots[r].(at := EffectiveMoved)];
      }
    }

    method PromoteCredential(r: nat)
      modifies this`rots, this`users, this`bmcRef
      ensures View() == Promotion(old(View()), r)
    {
      PromoteUser(r);
      if r >= |rots| {
        return;
      }
      if Holds(View(), r) && rots[r].at == EffectiveMoved {
        bmcRef := rots[r].newRef.value;
        rots := rots[r := rots[r].(at := Promoted)];
      }
      if rots[r].at == Promoted {
        rots := rots[r := rots[r].(phase := Succeeded, at := Idle)];
      }
    }

    /** One reconcile of a rotation. */
    method ExecuteDualAccount(r: nat, listing: seq<nat>, mangles: bool, max: nat)
      modifies this
      ensures View() == Attempt(old(View()), r, listing, mangles, max)
    {
      Connect(r, listing);
      PrepareSecret(r);
      ChangePassword(r, mangles);
      CountRejection(r, max);
      PromoteCredential(r);
    }

    method TestDesired(u: nat)
      modifies this`users
      ensures View() == After(old(View()), TryDesired(u))
    {
      if u < |users| && users[u].busy.Looked? && Readable(View(), users[u].busy.x) {
        users := users[u := users[u].(busy := AfterTryDesired(users[u]))];
      }
    }

    method TestEffective(u: nat)
      modifies this`users
      ensures View() == After(old(View()), TryEffective(u))
    {
      if u < |users| && users[u].busy.Liked? && Readable(View(), users[u].busy.was) {
        users := users[u := users[u].(busy := AfterTryEffective(users[u]))];
      }
    }

    /** Reads the user and tests its desired secret, then its effective one. */
    method TestSecrets(u: nat)
      modifies this`users
      ensures View() == Tested(old(View()), u)
    {
      if u < |users| && users[u].here && users[u].busy == Resting && users[u].spec.Some? {
        users := users[u := users[u].(busy := Looked(users[u].spec.value, users[u].effective, bmcRef))];
      }
      TestDesired(u);
      TestEffective(u);
    }

    /** Moves the effective reference and the one of the BMC when the tests said so. */
    method SetEffectiveSecretRef(u: nat)
      modifies this`users, this`bmcRef
      ensures View() == Refreshed(old(View()), u)
    {
      if u >= |users| {
        return;
      }
      if users[u].busy.Moving? {
        var x, b := users[u].busy.x, users[u].busy.b;
        users := users[u := users[u].(effective := Some(x), busy := if users[u].admin then Moved(x, b) else Resting)];
      }
      if users[u].busy.Moved? {
        if users[u].busy.b != users[u].busy.x {
          bmcRef := users[u].busy.x;
        }
        users := users[u := users[u].(busy := Resting)];
      }
    }

    /** Changes the account to a desired secret that is not the effective one. */
    method HandleUpdatedSecretRef(u: nat, mangles: bool)
      modifies this`users
      ensures View() == After(old(View()), Rewrite(u, mangles))
    {
      if u < |users| && users[u].busy.Rewriting? {
        users := users[u := users[u].(account := if mangles then Mangled else Of(users[u].busy.x), busy := Resting)];
      }
    }

    method ReconcileSecretRef(u: nat, mangles: bool)
      modifies this`users
      ensures View() == Applied(old(View()), u, mangles)
    {
      HandleUpdatedSecretRef(u, mangles);
      if u < |users| {
        users := users[u := users[u].(busy := Resting)];
      }
    }

    /** One reconcile of a user up to its pruning. */
    method ReconcileUser(u: nat, mangles: bool)
      modifies this`users, this`bmcRef
      ensures View() == UserAttempt(old(View()), u, mangles)
    {
      TestSecrets(u);
      SetEffectiveSecretRef(u);
      ReconcileSecretRef(u, mangles);
    }

    /** What pruning must keep: the named secrets, and the rotations whose secret may not be recorded yet. */
    method CollectProtected(u: nat) returns (protected: set<nat>, inFlight: set<nat>)
      requires u < |users|
      ensures forall x: nat :: x in protected <==> Protected(View(), u, x)
      ensures forall q: nat :: q in inFlight <==> InFlight(rots, u, q)
    {
      protected := Named(users[u].spec) + Named(users[u].effective) + Named(users[u].bootstrap) + {bmcRef};
      ghost var base := protected;
      inFlight := {};
      for r := 0 to |rots|
        invariant forall x: nat :: x in protected <==> x in base || RecordedBefore(rots, u, r, x)
        invariant forall q: nat :: q in inFlight <==> q < r && InFlight(rots, u, q)
      {
        RecordedSnoc(rots, u, r);
        if rots[r].user == u && rots[r].phase != Succeeded && rots[r].phase != Failed {
          inFlight := inFlight + {r};
          protected := protected + Named(rots[r].newRef);
        }
      }
    }

    /** Deletes the secrets of a user that nobody needs; `refused` deletions fail and are reported. */
    method PruneOldSecrets(u: nat, refused: set<nat>) returns (errs: set<nat>)
      requires u < |users|
      modifies this`secrets
      ensures secrets == PrunedSecrets(old(View()), u, refused)
      ensures forall x: nat :: x in errs <==> x < |secrets| && Prunable(old(View()), u, x) && x in refused
    {
      var protected, inFlight := CollectProtected(u);
      ghost var was := View();
      var kept: seq<Secret> := [];
      errs := {};
      for i := 0 to |secrets|
        invariant |kept| == i && secrets == was.secrets
        invariant forall x: nat :: x < i ==>
                    kept[x] == if Prunable(was, u, x) && x !in refused then was.secrets[x].(live := false) else was.secrets[x]
        invariant forall x: nat :: x in errs <==> x < i && Prunable(was, u, x) && x in refused
      {
        var secret := secrets[i];
        var needed := secret.owner != Some(u) || i in protected || secret.breakGlass
                      || (secret.rotation.Some? && secret.rotation.value in inFlight);
        assert needed <==> !Prunable(was, u, i);
        if needed || i in refused {
          kept := kept + [secret];
        } else {
          kept := kept + [secret.(live := false)];
        }
        if !needed && i in refused {
          errs := errs + {i};
        }
      }
      secrets := kept;
    }
  }

  lemma ActiveSnoc(rots: seq<Rot>, rot: Rot)
    ensures forall p :: Active(rots + [rot], p) <==> Active(rots, p) || (Unfinished(rot) && rot.user == p)
  {
    forall p
      ensures Active(rots + [rot], p) <==> Active(rots, p) || (Unfinished(rot) && rot.user == p)
    {
      var all := rots + [rot];
      assert all[|rots|] == rot;
      if Active(rots, p) {
        var r :| 0 <= r < |rots| && rots[r].user == p && Unfinished(rots[r]);
        assert all[r] == rots[r];
      }
    }
  }

  function Named(ref: Option<nat>): set<nat> {
    if ref.Some? then {ref.value} else {}
  }

  predicate RecordedBefore(rots: seq<Rot>, u: nat, n: nat, x: nat)
    requires n <= |rots|
  {
    exists r :: 0 <= r < n && rots[r].user == u && Unfinished(rots[r]) && rots[r].newRef == Some(x)
  }

  lemma RecordedSnoc(rots: seq<Rot>, u: nat, n: nat)
    requires n < |rots|
    ensures forall x: nat :: RecordedBefore(rots, u, n + 1, x) <==>
              RecordedBefore(rots, u, n, x) || (rots[n].user == u && Unfinished(rots[n]) && rots[n].newRef == Some(x))
  {
  }
}
