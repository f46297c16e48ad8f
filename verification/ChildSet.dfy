/**
 The fan-out of a Set over servers: one child per selected server is created, children of other servers
 are deleted unless a maintenance window holds them, the rest is patched from the template, and their
 states are counted.
 */
module ChildSet {
  import opened Options

  datatype ChildState = Pending | InProgress | Succeeded | Failed

  /** What a look at one referenced maintenance finds. */
  datatype Window = Missing | Unreadable | Deleting | Idle | ServerGone | ServerUnreadable | Held

  /** A child; an empty target means that it is not set. */
  datatype Child = Child(name: string, target: string, state: ChildState, windows: seq<Window>, template: int)

  /** The stored children of the Set, by name. */
  type Store = map<string, Child>

  // ---------------------------------------------------------------- maintenance windows

  datatype Activity = Active | Inactive | Unknown

  /** The first window that is held or cannot be checked decides. */
  function AnyActive(windows: seq<Window>): Activity {
    if windows == [] then Inactive
    else
      match windows[0]
      case Held => Active
      case Unreadable => Unknown
      case ServerUnreadable => Unknown
      case _ => AnyActive(windows[1..])
  }

  /** A window that is held, or that cannot be checked. */
  predicate Stops(w: Window) {
    w == Held || w == Unreadable || w == ServerUnreadable
  }

  /** The first window that is held or cannot be checked decides; without one nothing is active. */
  lemma {:induction false} AnyActiveIff(windows: seq<Window>)
    ensures AnyActive(windows) == Inactive <==> forall i :: 0 <= i < |windows| ==> !Stops(windows[i])
    ensures forall i :: 0 <= i < |windows| && Stops(windows[i]) && (forall j :: 0 <= j < i ==> !Stops(windows[j])) ==>
              AnyActive(windows) == if windows[i] == Held then Active else Unknown
  {
    if windows != [] {
      AnyActiveIff(windows[1..]);
      assert forall j :: 1 <= j < |windows| ==> windows[j] == windows[1..][j - 1];
      forall i | 0 <= i < |windows| && Stops(windows[i]) && (forall j :: 0 <= j < i ==> !Stops(windows[j]))
        ensures AnyActive(windows) == if windows[i] == Held then Active else Unknown
      {
        if i > 0 {
          assert windows[1..][i - 1] == windows[i];
          assert forall j :: 0 <= j < i - 1 ==> windows[1..][j] == windows[j + 1];
        }
      }
    }
  }

  method IsAnyServerMaintenanceActive(windows: seq<Window>) returns (a: Activity)
    ensures a == AnyActive(windows)
  {
    for i := 0 to |windows|
      invariant AnyActive(windows) == AnyActive(windows[i..])
    {
      assert windows[i..][1..] == windows[i + 1..];
      if windows[i] == Unreadable || windows[i] == ServerUnreadable {
        return Unknown;
      }
      if windows[i] == Held {
        return Active;
      }
    }
    return Inactive;
  }

  /** Held back by a window, or by not knowing. */
  predicate Blocked(c: Child) {
    c.windows != [] && c.state == InProgress && AnyActive(c.windows) != Inactive
  }

  /** In progress, with a window that is held or cannot be checked. */
  predicate HeldBack(c: Child) {
    c.state == InProgress && exists i :: 0 <= i < |c.windows| && Stops(c.windows[i])
  }

  lemma BlockedIff(c: Child)
    ensures Blocked(c) <==> HeldBack(c)
  {
    AnyActiveIff(c.windows);
  }

  // ---------------------------------------------------------------- create

  datatype Setup = Setup(servers: seq<string>, child: string -> string, template: int, refused: set<string>, stuck: set<string>)

  predicate Represented(owned: seq<Child>, server: string) {
    server != "" && exists i :: 0 <= i < |owned| && owned[i].target == server
  }

  /** A child created for a server, or an object of its name given the server and the template. */
  function CreateOrPatch(store: Store, setup: Setup, server: string): Store {
    var name := setup.child(server);
    if name in store then store[name := store[name].(target := server, template := setup.template)]
    else store[name := Child(name, server, Pending, [], setup.template)]
  }

  /** An object of that name keeps its state and its windows; a new one is pending without any. */
  lemma CreateKeepsState(store: Store, setup: Setup, server: string)
    ensures var name := setup.child(server);
            var after := CreateOrPatch(store, setup, server);
            && after.Keys == store.Keys + {name} && (forall n :: n in store && n != name ==> after[n] == store[n])
            && after[name].target == server && after[name].template == setup.template
            && (if name in store then
                  after[name].name == store[name].name && after[name].state == store[name].state && after[name].windows == store[name].windows
                else after[name].name == name && after[name].state == Pending && after[name].windows == [])
  {
  }

  function Ensured(store: Store, owned: seq<Child>, setup: Setup, servers: seq<string>): Store {
    if servers == [] then store
    else
      var before := Ensured(store, owned, setup, servers[..|servers| - 1]);
      var server := servers[|servers| - 1];
      if Represented(owned, server) || server in setup.refused then before else CreateOrPatch(before, setup, server)
  }

  // ---------------------------------------------------------------- prune

  predicate Keeps(c: Child, setup: Setup) {
    c.target == "" || c.target in setup.servers || Blocked(c) || c.name in setup.stuck
  }

  function Kept(owned: seq<Child>, setup: Setup): seq<Child> {
    if owned == [] then []
    else
      var last := |owned| - 1;
      if Keeps(owned[last], setup) then Kept(owned[..last], setup) + [owned[last]] else Kept(owned[..last], setup)
  }

  function Deleted(owned: seq<Child>, setup: Setup): seq<Child> {
    if owned == [] then []
    else
      var last := |owned| - 1;
      if Keeps(owned[last], setup) then Deleted(owned[..last], setup) else Deleted(owned[..last], setup) + [owned[last]]
  }

  function Pruned(store: Store, owned: seq<Child>, setup: Setup): Store {
    if owned == [] then store
    else
      var last := |owned| - 1;
      var before := Pruned(store, owned[..last], setup);
      if Keeps(owned[last], setup) then before else before - {owned[last].name}
  }

  // ---------------------------------------------------------------- patch and count

  /** Applies the template to a child that is not in progress; a child that is gone is created again. */
  function PatchOne(store: Store, c: Child, setup: Setup): Store {
    if c.state == InProgress || c.name in setup.stuck then store
    else store[c.name := (if c.name in store then store[c.name] else c).(template := setup.template)]
  }

  /** Patching changes the template of the stored child and nothing else of it. */
  lemma PatchKeepsStored(store: Store, c: Child, setup: Setup)
    ensures c.name in store ==>
              PatchOne(store, c, setup)
              == if c.state == InProgress || c.name in setup.stuck then store
                 else store[c.name := store[c.name].(template := setup.template)]
  {
  }

  function Patched(store: Store, owned: seq<Child>, setup: Setup): Store {
    if owned == [] then store
    else PatchOne(Patched(store, owned[..|owned| - 1], setup), owned[|owned| - 1], setup)
  }

  function CountOf(owned: seq<Child>, state: ChildState): nat {
    if owned == [] then 0
    else CountOf(owned[..|owned| - 1], state) + if owned[|owned| - 1].state == state then 1 else 0
  }

  function Deletable(owned: seq<Child>): nat {
    if owned == [] then 0 else Deletable(owned[..|owned| - 1]) + if Blocked(owned[|owned| - 1]) then 0 else 1
  }

  datatype ChildCounts = ChildCounts(available: nat, pending: nat, inProgress: nat, succeeded: nat, failed: nat)

  /** The client of the Set controllers, working on the stored children. */
  class ChildManager {
    var store: Store

    constructor (store: Store)
      ensures this.store == store
    {
      this.store := store;
    }

    method EnsureForServers(setup: Setup, owned: seq<Child>)
      modifies this
      ensures store == Ensured(old(store), owned, setup, setup.servers)
    {
      var withChild: set<string> := {};
      for i := 0 to |owned|
        invariant store == old(store)
        invariant forall s :: s in withChild <==> Represented(owned[..i], s)
      {
        RepresentedNext(owned, i);
        if owned[i].target != "" {
          withChild := withChild + {owned[i].target};
        }
      }
      assert owned[..|owned|] == owned;
      for i := 0 to |setup.servers|
        invariant store == Ensured(old(store), owned, setup, setup.servers[..i])
      {
        var server := setup.servers[i];
        assert setup.servers[..i + 1][..i] == setup.servers[..i];
        if server !in withChild && server !in setup.refused {
          store := CreateOrPatch(store, setup, server);
        }
      }
      assert setup.servers[..|setup.servers|] == setup.servers;
    }

    method DeleteOrphans(setup: Setup, owned: seq<Child>) returns (kept: seq<Child>)
      modifies this
      ensures store == Pruned(old(store), owned, setup) && kept == Kept(owned, setup)
    {
      var serverSet := set s | s in setup.servers;
      kept := [];
      for i := 0 to |owned|
        invariant store == Pruned(old(store), owned[..i], setup) && kept == Kept(owned[..i], setup)
      {
        var child := owned[i];
        assert owned[..i + 1][..i] == owned[..i];
        if child.target == "" || child.target in serverSet {
          kept := kept + [child];
          continue;
        }
        if |child.windows| > 0 && child.state == InProgress {
          var active := IsAnyServerMaintenanceActive(child.windows);
          if active != Inactive {
            kept := kept + [child];
            continue;
          }
        }
        if child.name in setup.stuck {
          kept := kept + [child];
          continue;
        }
        store := store - {child.name};
      }
      assert owned[..|owned|] == owned;
    }

    method PatchFromTemplate(setup: Setup, owned: seq<Child>) returns (pending: bool)
      modifies this
      ensures store == Patched(old(store), owned, setup)
      ensures pending == exists i :: 0 <= i < |owned| && owned[i].state == InProgress
    {
      pending := false;
      for i := 0 to |owned|
        invariant store == Patched(old(store), owned[..i], setup)
        invariant pending == exists j :: 0 <= j < i && owned[j].state == InProgress
      {
        assert owned[..i + 1][..i] == owned[..i];
        if owned[i].state == InProgress {
          pending := true;
        } else {
          store := PatchOne(store, owned[i], setup);
        }
      }
      assert owned[..|owned|] == owned;
    }

    /** One pass of a Set controller. */
    method Reconcile(setup: Setup, owned: seq<Child>) returns (kept: seq<Child>, pending: bool)
      modifies this
      ensures store == Pass(old(store), owned, setup) && kept == Kept(owned, setup)
    {
      EnsureForServers(setup, owned);
      kept := DeleteOrphans(setup, owned);
      pending := PatchFromTemplate(setup, kept);
    }
  }

  function Pass(store: Store, owned: seq<Child>, setup: Setup): Store {
    Patched(Pruned(Ensured(store, owned, setup, setup.servers), owned, setup), Kept(owned, setup), setup)
  }

  lemma RepresentedNext(owned: seq<Child>, i: nat)
    requires i < |owned|
    ensures forall s :: Represented(owned[..i + 1], s) <==> Represented(owned[..i], s) || (s != "" && owned[i].target == s)
  {
    var more := owned[..i + 1];
    assert more[i] == owned[i];
    forall s
      ensures Represented(more, s) <==> Represented(owned[..i], s) || (s != "" && owned[i].target == s)
    {
      if Represented(owned[..i], s) {
        var j :| 0 <= j < i && owned[..i][j].target == s;
        assert more[j].target == s;
      }
    }
  }

  method Aggregate(owned: seq<Child>) returns (counts: ChildCounts)
    ensures counts == ChildCounts(|owned|, CountOf(owned, Pending), CountOf(owned, InProgress), CountOf(owned, Succeeded), CountOf(owned, Failed))
    ensures counts.available == counts.pending + counts.inProgress + counts.succeeded + counts.failed
  {
    counts := ChildCounts(|owned|, 0, 0, 0, 0);
    for i := 0 to |owned|
      invariant counts == ChildCounts(|owned|, CountOf(owned[..i], Pending), CountOf(owned[..i], InProgress),
                                      CountOf(owned[..i], Succeeded), CountOf(owned[..i], Failed))
      invariant i == counts.pending + counts.inProgress + counts.succeeded + counts.failed
    {
      assert owned[..i + 1][..i] == owned[..i];
      match owned[i].state {
        case Succeeded => counts := counts.(succeeded := counts.succeeded + 1);
        case Failed => counts := counts.(failed := counts.failed + 1);
        case InProgress => counts := counts.(inProgress := counts.inProgress + 1);
        case Pending => counts := counts.(pending := counts.pending + 1);
      }
    }
    assert owned[..|owned|] == owned;
  }

  method DeletableCount(owned: seq<Child>) returns (count: nat)
    ensures count == Deletable(owned)
  {
    count := 0;
    for i := 0 to |owned|
      invariant count == Deletable(owned[..i])
    {
      assert owned[..i + 1][..i] == owned[..i];
      if |owned[i].windows| == 0 || owned[i].state != InProgress {
        count := count + 1;
        continue;
      }
      var active := IsAnyServerMaintenanceActive(owned[i].windows);
      if active == Inactive {
        count := count + 1;
      }
    }
    assert owned[..|owned|] == owned;
  }

  // ---------------------------------------------------------------- agreement

  /** Children that neither the count nor the deletion agree on: no target, and not blocked. */
  function Untargeted(owned: seq<Child>): nat {
    if owned == [] then 0
    else
      var c := owned[|owned| - 1];
      Untargeted(owned[..|owned| - 1]) + if c.target == "" && !Blocked(c) then 1 else 0
  }

  /** Kept and deleted children partition the owned ones. */
  lemma {:induction false} KeptAndDeletedPartition(owned: seq<Child>, setup: Setup)
    ensures multiset(Kept(owned, setup)) + multiset(Deleted(owned, setup)) == multiset(owned)
    ensures forall c :: c in Kept(owned, setup) <==> c in owned && Keeps(c, setup)
    ensures forall c :: c in Deleted(owned, setup) <==> c in owned && !Keeps(c, setup)
  {
    if owned != [] {
      var last := |owned| - 1;
      KeptAndDeletedPartition(owned[..last], setup);
      assert owned == owned[..last] + [owned[last]];
    }
  }

  /** The positions of the owned children that are kept, or that are not. */
  function Positions(owned: seq<Child>, setup: Setup, kept: bool): seq<nat> {
    if owned == [] then []
    else
      var last := |owned| - 1;
      var before := Positions(owned[..last], setup, kept);
      if Keeps(owned[last], setup) == kept then before + [last] else before
  }

  predicate Increasing(positions: seq<nat>, bound: nat) {
    && (forall i :: 0 <= i < |positions| ==> positions[i] < bound)
    && (forall i, j :: 0 <= i < j < |positions| ==> positions[i] < positions[j])
  }

  /** The positions ascend and name exactly the children that are, or are not, kept. */
  lemma {:induction false} PositionsInOrder(owned: seq<Child>, setup: Setup, kept: bool)
    ensures Increasing(Positions(owned, setup, kept), |owned|)
    ensures forall i :: 0 <= i < |owned| ==> (i in Positions(owned, setup, kept) <==> Keeps(owned[i], setup) == kept)
  {
    if owned != [] {
      PositionsInOrder(owned[..|owned| - 1], setup, kept);
    }
  }

  /** The children at some positions, in that order. */
  function At(owned: seq<Child>, positions: seq<nat>): seq<Child>
    requires forall i :: 0 <= i < |positions| ==> positions[i] < |owned|
  {
    if positions == [] then [] else At(owned, positions[..|positions| - 1]) + [owned[positions[|positions| - 1]]]
  }

  lemma {:induction false} AtLonger(owned: seq<Child>, last: nat, positions: seq<nat>)
    requires last <= |owned| && forall i :: 0 <= i < |positions| ==> positions[i] < last
    ensures At(owned, positions) == At(owned[..last], positions)
  {
    if positions != [] {
      AtLonger(owned, last, positions[..|positions| - 1]);
    }
  }

  /** Kept and deleted children are the owned ones at two complementary lists of positions, in order. */
  lemma {:induction false} KeptAndDeletedInOrder(owned: seq<Child>, setup: Setup)
    ensures Increasing(Positions(owned, setup, true), |owned|) && Increasing(Positions(owned, setup, false), |owned|)
    ensures forall i :: 0 <= i < |owned| ==> (i in Positions(owned, setup, true) <==> i !in Positions(owned, setup, false))
    ensures Kept(owned, setup) == At(owned, Positions(owned, setup, true))
    ensures Deleted(owned, setup) == At(owned, Positions(owned, setup, false))
  {
    PositionsInOrder(owned, setup, true);
    PositionsInOrder(owned, setup, false);
    if owned != [] {
      var last := |owned| - 1;
      KeptAndDeletedInOrder(owned[..last], setup);
      AtLonger(owned, last, Positions(owned[..last], setup, true));
      AtLonger(owned, last, Positions(owned[..last], setup, false));
      var kept := Keeps(owned[last], setup);
      assert Positions(owned, setup, kept)[..|Positions(owned, setup, kept)| - 1] == Positions(owned[..last], setup, kept);
    }
  }

  /** A child in progress is never deleted while one of its windows is held or cannot be checked. */
  lemma HeldChildIsKept(owned: seq<Child>, setup: Setup, c: Child, i: nat)
    requires c in owned && c.state == InProgress && i < |c.windows| && c.windows[i] in {Held, Unreadable, ServerUnreadable}
    ensures c in Kept(owned, setup) && c !in Deleted(owned, setup)
  {
    KeptAndDeletedPartition(owned, setup);
    BlockedIff(c);
    assert Stops(c.windows[i]);
  }

  /** A child is deleted exactly when its server is not selected, nothing holds it back and the deletion goes through. */
  lemma DeletedIff(owned: seq<Child>, setup: Setup, c: Child)
    requires c in owned
    ensures c in Deleted(owned, setup) <==>
              c.target != "" && c.target !in setup.servers && !HeldBack(c) && c.name !in setup.stuck
  {
    KeptAndDeletedPartition(owned, setup);
    BlockedIff(c);
  }

  function Where(owned: seq<Child>, p: Child -> bool): set<nat> {
    set i: nat | i < |owned| && p(owned[i])
  }

  lemma WhereNext(owned: seq<Child>, p: Child -> bool)
    requires owned != []
    ensures var last := |owned| - 1;
            |Where(owned, p)| == |Where(owned[..last], p)| + if p(owned[last]) then 1 else 0
  {
    var last := |owned| - 1;
    assert Where(owned, p) == Where(owned[..last], p) + if p(owned[last]) then {last} else {};
  }

  /** The deletable children are those that nothing holds back. */
  lemma {:induction false} DeletableIs(owned: seq<Child>)
    ensures Deletable(owned) == |Where(owned, c => !HeldBack(c))|
  {
    if owned == [] {
      assert Where(owned, c => !HeldBack(c)) == {};
    } else {
      DeletableIs(owned[..|owned| - 1]);
      BlockedIff(owned[|owned| - 1]);
      WhereNext(owned, c => !HeldBack(c));
    }
  }

  /** A counter is the number of children in its state. */
  lemma {:induction false} CountIs(owned: seq<Child>, state: ChildState)
    ensures CountOf(owned, state) == |Where(owned, (c: Child) => c.state == state)|
  {
    if owned == [] {
      assert Where(owned, (c: Child) => c.state == state) == {};
    } else {
      CountIs(owned[..|owned| - 1], state);
      WhereNext(owned, (c: Child) => c.state == state);
    }
  }

  /** The count agrees with what a deletion without servers removes, except for children without a target. */
  lemma {:induction false} CountAgreesWithDeletion(owned: seq<Child>, setup: Setup)
    requires setup.servers == [] && setup.stuck == {}
    ensures Deletable(owned) == |Deleted(owned, setup)| + Untargeted(owned)
  {
    if owned != [] {
      CountAgreesWithDeletion(owned[..|owned| - 1], setup);
    }
  }

  lemma {:induction false} UntargetedNone(owned: seq<Child>)
    ensures Untargeted(owned) == 0 <==> forall i :: 0 <= i < |owned| ==> owned[i].target != "" || Blocked(owned[i])
  {
    if owned != [] {
      var last := |owned| - 1;
      UntargetedNone(owned[..last]);
      assert forall i :: 0 <= i < last ==> owned[..last][i] == owned[i];
    }
  }

  /** They agree exactly when every child without a target is blocked. */
  lemma CountAgreesIff(owned: seq<Child>, setup: Setup)
    requires setup.servers == [] && setup.stuck == {}
    ensures Deletable(owned) == |Deleted(owned, setup)|
            <==> forall i :: 0 <= i < |owned| ==> owned[i].target != "" || Blocked(owned[i])
  {
    CountAgreesWithDeletion(owned, setup);
    UntargetedNone(owned);
  }
}
