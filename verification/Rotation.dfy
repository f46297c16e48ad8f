/**
 Password rotation of the OperatorAdmin users of one BMC: each rotation changes the account of its user
 through the credential of a peer, and each user's own reconcile refreshes its effective secret and applies
 an edited one, in sub-steps that may be cut off after any of them. Users, rotations and secrets are
 numbered; a fresh secret holds a password never used before.
 */
module Rotation {
  import opened Options

  /** The password an account accepts: the one of a secret, or something the BMC made of it. */
  datatype Password = Of(secret: nat) | Mangled

  /**
   How far the running reconcile of a user is, with what it read at its start: the desired secret, the
   effective one, and the secret the BMC referred to.
   */
  datatype Busy =
    | Resting
    | Looked(x: nat, e: Option<nat>, b: nat)
    | Liked(x: nat, was: nat, b: nat)         // the BMC accepts the desired secret
    | Moving(x: nat, b: nat)                  // and rejects the effective one, or there is none
    | Moved(x: nat, b: nat)                   // the effective reference is patched
    | Rewriting(x: nat)                       // desired and effective differ: the account is to be changed

  /** A user with its references, the password its account on the BMC accepts, and its reconcile. */
  datatype User = User(
    admin: bool,
    here: bool,
    spec: Option<nat>,
    effective: Option<nat>,
    bootstrap: Option<nat>,
    account: Password,
    busy: Busy)

  datatype Secret = Secret(owner: Option<nat>, rotation: Option<nat>, breakGlass: bool, live: bool)

  datatype Phase = Pending | InProgress | Succeeded | Failed

  /** How far the running reconcile of a rotation is. */
  datatype Point =
    | Idle
    | Connected(peer: nat, cred: nat)
    | Created(peer: nat, cred: nat, made: nat)
    | Ready(peer: nat, cred: nat)
    | Written
    | Rejected
    | Counted
    | Accepted
    | SpecMoved
    | EffectiveMoved
    | Promoted

  /**
   A rotation. The last three fields record what happened to it: the passwords sent to the BMC, the
   rejected tests, and how often a reconcile was cut off between a rejected test and its verdict.
   */
  datatype Rot = Rot(
    user: nat,
    phase: Phase,
    newRef: Option<nat>,
    retries: nat,
    at: Point,
    sent: set<nat>,
    rejected: nat,
    cuts: nat)

  datatype State = State(users: seq<User>, rots: seq<Rot>, secrets: seq<Secret>, bmcRef: nat)

  predicate Unfinished(rot: Rot) {
    rot.phase != Succeeded && rot.phase != Failed
  }

  predicate Active(rots: seq<Rot>, u: nat) {
    exists r :: 0 <= r < |rots| && rots[r].user == u && Unfinished(rots[r])
  }

  // ---------------------------------------------------------------- the peer

  datatype Peer = Found(peer: nat, cred: nat) | Requeue | NoPeer

  predicate Candidate(s: State, u: nat, p: nat) {
    p < |s.users| && p != u && s.users[p].admin && s.users[p].here && s.users[p].effective.Some?
  }

  predicate Readable(s: State, x: nat) {
    x < |s.secrets| && s.secrets[x].live
  }

  /** The first candidate of the listing whose secret can be read, unless a busy one comes before it. */
  function FindPeer(s: State, u: nat, listing: seq<nat>): (peer: Peer)
    ensures peer.Found? ==> Candidate(s, u, peer.peer) && s.users[peer.peer].effective == Some(peer.cred)
    ensures peer.Found? ==> !Active(s.rots, peer.peer) && Readable(s, peer.cred)
    decreases |listing|
  {
    if listing == [] then NoPeer
    else
      var p := listing[0];
      if !Candidate(s, u, p) then FindPeer(s, u, listing[1..])
      else if Active(s.rots, p) then Requeue
      else
        var cred := s.users[p].effective.value;
        if Readable(s, cred) then Found(p, cred) else FindPeer(s, u, listing[1..])
  }

  /** A listed user that settles the search: another OperatorAdmin here that is busy, or whose secret can be read. */
  predicate Settles(s: State, u: nat, p: nat) {
    && p < |s.users| && p != u && s.users[p].admin && s.users[p].here && s.users[p].effective.Some?
    && (Active(s.rots, p) || Readable(s, s.users[p].effective.value))
  }

  /** The first listed user that settles the search. */
  predicate SettlesFirst(s: State, u: nat, listing: seq<nat>, i: nat) {
    i < |listing| && Settles(s, u, listing[i]) && forall j :: 0 <= j < i ==> !Settles(s, u, listing[j])
  }

  /** The search waits for a busy first one, takes an idle first one, and fails exactly when nobody settles it. */
  lemma {:induction false} FindPeerIff(s: State, u: nat, listing: seq<nat>)
    ensures FindPeer(s, u, listing) == NoPeer <==> forall i :: 0 <= i < |listing| ==> !Settles(s, u, listing[i])
    ensures forall i :: 0 <= i < |listing| && SettlesFirst(s, u, listing, i) ==>
              FindPeer(s, u, listing)
              == if Active(s.rots, listing[i]) then Requeue else Found(listing[i], s.users[listing[i]].effective.value)
    decreases |listing|
  {
    if listing != [] {
      FindPeerIff(s, u, listing[1..]);
      assert forall j :: 1 <= j < |listing| ==> listing[j] == listing[1..][j - 1];
      if Settles(s, u, listing[0]) {
        assert SettlesFirst(s, u, listing, 0);
      } else {
        forall i | 0 <= i < |listing| && SettlesFirst(s, u, listing, i)
          ensures i > 0 && SettlesFirst(s, u, listing[1..], i - 1)
        {
          assert forall j :: 0 <= j < i - 1 ==> listing[1..][j] == listing[j + 1];
        }
      }
    }
  }

  // ---------------------------------------------------------------- pruning

  predicate Protected(s: State, u: nat, x: nat)
    requires u < |s.users|
  {
    || s.users[u].spec == Some(x)
    || s.users[u].effective == Some(x)
    || s.users[u].bootstrap == Some(x)
    || s.bmcRef == x
    || exists r :: 0 <= r < |s.rots| && s.rots[r].user == u && Unfinished(s.rots[r]) && s.rots[r].newRef == Some(x)
  }

  predicate InFlight(rots: seq<Rot>, u: nat, r: nat) {
    r < |rots| && rots[r].user == u && Unfinished(rots[r])
  }

  /** Owned by the user, needed by nobody. */
  predicate Prunable(s: State, u: nat, x: nat)
    requires u < |s.users| && x < |s.secrets|
  {
    var secret := s.secrets[x];
    && secret.owner == Some(u)
    && !Protected(s, u, x)
    && !secret.breakGlass
    && !(secret.rotation.Some? && InFlight(s.rots, u, secret.rotation.value))
  }

  /** The secrets after pruning; `refused` are those whose deletion fails. */
  function PrunedSecrets(s: State, u: nat, refused: set<nat>): (secrets: seq<Secret>)
    requires u < |s.users|
    ensures |secrets| == |s.secrets|
    ensures forall x :: 0 <= x < |secrets| ==>
              secrets[x] == if Prunable(s, u, x) && x !in refused then s.secrets[x].(live := false) else s.secrets[x]
  {
    seq(|s.secrets|, x requires 0 <= x < |s.secrets| =>
      if Prunable(s, u, x) && x !in refused then s.secrets[x].(live := false) else s.secrets[x])
  }

  // ---------------------------------------------------------------- steps

  datatype Step =
    | Create(u: nat)                            // a rotation becomes due
    | Begin(r: nat, listing: seq<nat>)          // find the peer and connect
    | Refuse(r: nat)                            // password limits that cannot be met
    | MakeSecret(r: nat)
    | Persist(r: nat)                           // record NewSecretRef
    | Write(r: nat, mangles: bool)              // change the account password
    | Test(r: nat)
    | Count(r: nat)                             // record the rejected test
    | Judge(r: nat, max: nat)                   // retry or fail
    | MoveSpec(r: nat)
    | MoveEffective(r: nat)
    | MoveBmc(r: nat)
    | Succeed(r: nat)
    | Cut(r: nat)                               // an error or a crash ends the reconcile
    | Look(u: nat)                              // a reconcile of a user starts
    | LookAgain(u: nat)                         // its status patch returns the references as they are by then
    | TryDesired(u: nat)
    | TryEffective(u: nat)
    | PatchEffective(u: nat)
    | PatchBmc(u: nat)
    | Rewrite(u: nat, mangles: bool)            // change the account to the desired secret
    | Leave(u: nat)                             // an error or a crash ends the reconcile of the user
    | Edit(u: nat, x: nat)                      // someone names another desired secret
    | Prune(u: nat, refused: set<nat>)          // the last part of a reconcile of the user

  function WithRot(s: State, r: nat, rot: Rot): State
    requires r < |s.rots|
  {
    s.(rots := s.rots[r := rot])
  }

  function WithUser(s: State, u: nat, user: User): State
    requires u < |s.users|
  {
    s.(users := s.users[u := user])
  }

  /** Connecting is not checked here, so that a credential the BMC rejects is covered too: the write checks it. */
  function Begun(s: State, r: nat, listing: seq<nat>): State
    requires r < |s.rots|
  {
    var rot := s.rots[r];
    match FindPeer(s, rot.user, listing)
    case Requeue => WithRot(s, r, rot.(phase := InProgress))
    case NoPeer => WithRot(s, r, rot.(phase := Failed))
    case Found(peer, cred) =>
      if rot.newRef.None? then WithRot(s, r, rot.(phase := InProgress, at := Connected(peer, cred)))
      else if Readable(s, rot.newRef.value) then WithRot(s, r, rot.(phase := InProgress, at := Ready(peer, cred)))
      else WithRot(s, r, rot.(phase := InProgress))
  }

  /** The account changes only if the BMC accepts the credential of the peer at that moment. */
  function AfterWrite(s: State, r: nat, mangles: bool): State
    requires Holds(s, r) && s.rots[r].at.Ready?
  {
    var rot := s.rots[r];
    var x := rot.newRef.value;
    if rot.at.peer < |s.users| && s.users[rot.at.peer].account == Of(rot.at.cred) then
      WithRot(
        WithUser(s, rot.user, s.users[rot.user].(account := if mangles then Mangled else Of(x))),
        r, rot.(at := Written, sent := rot.sent + {x}))
    else WithRot(s, r, rot.(at := Idle))
  }

  /** The effective secret stays: the account is rewritten if another one is desired. */
  function Compared(x: nat, e: Option<nat>): Busy {
    if e.Some? && e.value != x then Rewriting(x) else Resting
  }

  function AfterTryDesired(user: User): Busy
    requires user.busy.Looked?
  {
    var Looked(x, e, b) := user.busy;
    if user.account != Of(x) then Compared(x, e) else if e.None? then Moving(x, b) else Liked(x, e.value, b)
  }

  function AfterTryEffective(user: User): Busy
    requires user.busy.Liked?
  {
    if user.account == Of(user.busy.was) then Compared(user.busy.x, Some(user.busy.was)) else Moving(user.busy.x, user.busy.b)
  }

  /** A rotation of a known user with a recorded new secret. */
  predicate Holds(s: State, r: nat) {
    r < |s.rots| && s.rots[r].user < |s.users| && s.rots[r].newRef.Some?
  }

  /** A step of a rotation's reconcile that finds the rotation at the right point. */
  predicate Enabled(s: State, step: Step) {
    match step
    case Create(u) => u < |s.users| && s.users[u].admin && s.users[u].here && !Active(s.rots, u)
    case Begin(r, _) => r < |s.rots| && Unfinished(s.rots[r]) && s.rots[r].at == Idle
    case Refuse(r) => r < |s.rots| && s.rots[r].at.Connected?
    case MakeSecret(r) => r < |s.rots| && s.rots[r].at.Connected?
    case Persist(r) => r < |s.rots| && s.rots[r].at.Created?
    case Write(r, _) => Holds(s, r) && s.rots[r].at.Ready?
    case Test(r) => Holds(s, r) && s.rots[r].at == Written
    case Count(r) => r < |s.rots| && s.rots[r].at == Rejected
    case Judge(r, _) => r < |s.rots| && s.rots[r].at == Counted
    case MoveSpec(r) => Holds(s, r) && s.rots[r].at == Accepted
    case MoveEffective(r) => Holds(s, r) && s.rots[r].at == SpecMoved
    case MoveBmc(r) => Holds(s, r) && s.rots[r].at == EffectiveMoved
    case Succeed(r) => r < |s.rots| && s.rots[r].at == Promoted
    case Cut(r) => r < |s.rots| && s.rots[r].at != Idle
    case Look(u) => u < |s.users| && s.users[u].here && s.users[u].busy == Resting && s.users[u].spec.Some?
    case LookAgain(u) => u < |s.users| && s.users[u].here && s.users[u].busy == Resting && s.users[u].spec.Some?
    case TryDesired(u) => u < |s.users| && s.users[u].busy.Looked? && Readable(s, s.users[u].busy.x)
    case TryEffective(u) => u < |s.users| && s.users[u].busy.Liked? && Readable(s, s.users[u].busy.was)
    case PatchEffective(u) => u < |s.users| && s.users[u].busy.Moving?
    case PatchBmc(u) => u < |s.users| && s.users[u].busy.Moved?
    case Rewrite(u, _) => u < |s.users| && s.users[u].busy.Rewriting?
    case Leave(u) => u < |s.users|
    case Edit(u, x) => u < |s.users| && Readable(s, x) && s.secrets[x].owner in {None, Some(u)}
    case Prune(u, _) => u < |s.users| && s.users[u].busy == Resting
  }

  function Next(s: State, step: Step): State
    requires Enabled(s, step)
  {
    match step
    case Create(u) => s.(rots := s.rots + [Rot(u, Pending, None, 0, Idle, {}, 0, 0)])
    case Begin(r, listing) => Begun(s, r, listing)
    case Refuse(r) => WithRot(s, r, s.rots[r].(phase := Failed, at := Idle))
    case MakeSecret(r) =>
      var rot := s.rots[r];
      var made := s.(secrets := s.secrets + [Secret(Some(rot.user), Some(r), false, true)]);
      WithRot(made, r, rot.(at := Created(rot.at.peer, rot.at.cred, |s.secrets|)))
    case Persist(r) =>
      var rot := s.rots[r];
      WithRot(s, r, rot.(newRef := Some(rot.at.made), at := Ready(rot.at.peer, rot.at.cred)))
    case Write(r, mangles) => AfterWrite(s, r, mangles)
    case Test(r) =>
      var rot := s.rots[r];
      if s.users[rot.user].account == Of(rot.newRef.value) then WithRot(s, r, rot.(at := Accepted))
      else WithRot(s, r, rot.(at := Rejected, rejected := rot.rejected + 1))
    case Count(r) => WithRot(s, r, s.rots[r].(at := Counted, retries := s.rots[r].retries + 1))
    case Judge(r, max) =>
      var rot := s.rots[r];
      WithRot(s, r, if rot.retries >= max then rot.(phase := Failed, at := Idle) else rot.(at := Idle))
    case MoveSpec(r) =>
      var rot := s.rots[r];
      WithRot(WithUser(s, rot.user, s.users[rot.user].(spec := rot.newRef)), r, rot.(at := SpecMoved))
    case MoveEffective(r) =>
      var rot := s.rots[r];
      WithRot(WithUser(s, rot.user, s.users[rot.user].(effective := rot.newRef)), r, rot.(at := EffectiveMoved))
    case MoveBmc(r) =>
      WithRot(s, r, s.rots[r].(at := Promoted)).(bmcRef := s.rots[r].newRef.value)
    case Succeed(r) => WithRot(s, r, s.rots[r].(phase := Succeeded, at := Idle))
    case Cut(r) =>
      var rot := s.rots[r];
      WithRot(s, r, rot.(at := Idle, cuts := if rot.at in {Rejected, Counted} then rot.cuts + 1 else rot.cuts))
    case Look(u) => WithUser(s, u, s.users[u].(busy := Looked(s.users[u].spec.value, s.users[u].effective, s.bmcRef)))
    case LookAgain(u) => WithUser(s, u, s.users[u].(busy := Compared(s.users[u].spec.value, s.users[u].effective)))
    case TryDesired(u) => WithUser(s, u, s.users[u].(busy := AfterTryDesired(s.users[u])))
    case TryEffective(u) => WithUser(s, u, s.users[u].(busy := AfterTryEffective(s.users[u])))
    case PatchEffective(u) =>
      var user := s.users[u];
      WithUser(s, u, user.(effective := Some(user.busy.x), busy := if user.admin then Moved(user.busy.x, user.busy.b) else Resting))
    case PatchBmc(u) =>
      var user := s.users[u];
      WithUser(s, u, user.(busy := Resting)).(bmcRef := if user.busy.b != user.busy.x then user.busy.x else s.bmcRef)
    case Rewrite(u, mangles) =>
      var user := s.users[u];
      WithUser(s, u, user.(account := if mangles then Mangled else Of(user.busy.x), busy := Resting))
    case Leave(u) => WithUser(s, u, s.users[u].(busy := Resting))
    case Edit(u, x) => WithUser(s, u, s.users[u].(spec := Some(x)))
    case Prune(u, refused) => s.(secrets := PrunedSecrets(s, u, refused))
  }
}
