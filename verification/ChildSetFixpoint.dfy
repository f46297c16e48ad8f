/**
 One pass of a Set over its children leaves exactly one child per selected server when nothing is
 blocked or fails, and a second pass changes nothing.
 */
module ChildSetFixpoint {
  import opened ChildSet

  /** The listing shows exactly the stored children. */
  ghost predicate Lists(owned: seq<Child>, store: Store) {
    && (forall i :: 0 <= i < |owned| ==> owned[i].name in store && store[owned[i].name] == owned[i])
    && (forall n :: n in store ==> store[n] in owned)
  }

  /** Every child is named after its target, and the name tells the target. */
  ghost predicate Named(store: Store, setup: Setup, targetOf: string -> string) {
    && (forall n :: n in store ==>
          store[n].name == n && store[n].target != "" && n == setup.child(store[n].target) && targetOf(n) == store[n].target)
    && (forall s :: s in setup.servers ==> s != "" && targetOf(setup.child(s)) == s)
  }

  /** No create or delete fails, and no child of an unselected server is blocked. */
  ghost predicate Smooth(owned: seq<Child>, setup: Setup) {
    && setup.refused == {} && setup.stuck == {}
    && forall i :: 0 <= i < |owned| ==> owned[i].target in setup.servers || !Blocked(owned[i])
  }

  predicate Fresh(c: Child, setup: Setup, server: string) {
    c == Child(setup.child(server), server, Pending, [], setup.template)
  }

  /** After creating: the old children, and a fresh one for each server without. */
  ghost predicate EnsuredAt(store: Store, owned: seq<Child>, setup: Setup, servers: seq<string>, after: Store, n: string) {
    if n in store then n in after && after[n] == store[n]
    else
      && (n in after ==> exists s :: s in servers && n == setup.child(s) && Fresh(after[n], setup, s))
      && (n !in after ==> forall s :: s in servers ==> n != setup.child(s))
  }

  lemma NotRepresented(store: Store, owned: seq<Child>, setup: Setup, targetOf: string -> string, s: string)
    requires Lists(owned, store) && Named(store, setup, targetOf) && s in setup.servers
    ensures Represented(owned, s) <==> setup.child(s) in store
  {
    if Represented(owned, s) {
      var i :| 0 <= i < |owned| && owned[i].target == s;
      assert owned[i].name in store;
    }
    if setup.child(s) in store {
      var c := store[setup.child(s)];
      assert c.target == s;
      var i :| 0 <= i < |owned| && owned[i] == c;
    }
  }

  lemma {:induction false} EnsuredPoint(store: Store, owned: seq<Child>, setup: Setup, servers: seq<string>, targetOf: string -> string, n: string)
    requires Lists(owned, store) && Named(store, setup, targetOf) && setup.refused == {}
    requires forall s :: s in servers ==> s in setup.servers
    ensures EnsuredAt(store, owned, setup, servers, Ensured(store, owned, setup, servers), n)
  {
    if servers != [] {
      var last := |servers| - 1;
      var server := servers[last];
      EnsuredPoint(store, owned, setup, servers[..last], targetOf, n);
      assert servers == servers[..last] + [server];
      NotRepresented(store, owned, setup, targetOf, server);
      if n !in store && n == setup.child(server) {
        EnsuredTwice(store, owned, setup, servers, targetOf, n);
      }
    }
  }

  /** A name created twice would be for the same server twice. */
  lemma EnsuredTwice(store: Store, owned: seq<Child>, setup: Setup, servers: seq<string>, targetOf: string -> string, n: string)
    requires Lists(owned, store) && Named(store, setup, targetOf) && setup.refused == {}
    requires forall s :: s in servers ==> s in setup.servers
    requires servers != [] && n !in store && n == setup.child(servers[|servers| - 1])
    requires EnsuredAt(store, owned, setup, servers[..|servers| - 1], Ensured(store, owned, setup, servers[..|servers| - 1]), n)
    ensures var after := Ensured(store, owned, setup, servers); n in after && Fresh(after[n], setup, servers[|servers| - 1])
  {
    var server := servers[|servers| - 1];
    NotRepresented(store, owned, setup, targetOf, server);
    var before := Ensured(store, owned, setup, servers[..|servers| - 1]);
    if n in before {
      var s :| s in servers[..|servers| - 1] && n == setup.child(s) && Fresh(before[n], setup, s);
      assert s in setup.servers;
      assert s == server;
    }
  }

  /** Pruning removes the names of the deleted children and nothing else. */
  lemma {:induction false} PrunedPoint(store: Store, owned: seq<Child>, setup: Setup, n: string)
    ensures var after := Pruned(store, owned, setup);
            && (n in after <==> n in store && forall i :: 0 <= i < |owned| && owned[i].name == n ==> Keeps(owned[i], setup))
            && (n in after ==> after[n] == store[n])
  {
    if owned != [] {
      var last := |owned| - 1;
      PrunedPoint(store, owned[..last], setup, n);
      assert forall i :: 0 <= i < last ==> owned[..last][i] == owned[i];
    }
  }

  function Templated(c: Child, setup: Setup): Child {
    if c.state == InProgress then c else c.(template := setup.template)
  }

  /** Patching the stored children of a list applies the template to them and to nothing else. */
  lemma {:induction false} PatchedPoint(store: Store, owned: seq<Child>, setup: Setup, n: string)
    requires setup.stuck == {}
    requires forall i :: 0 <= i < |owned| ==> owned[i].name in store && store[owned[i].name] == owned[i]
    ensures var after := Patched(store, owned, setup);
            && (n in after <==> n in store)
            && (n in after ==> after[n] == if exists i :: 0 <= i < |owned| && owned[i].name == n then Templated(store[n], setup) else store[n])
  {
    if owned != [] {
      var last := |owned| - 1;
      PatchedPoint(store, owned[..last], setup, n);
      assert forall i :: 0 <= i < last ==> owned[..last][i] == owned[i];
      if owned[last].name == n {
        PatchedPoint(store, owned[..last], setup, owned[last].name);
      }
    }
  }

  /** What a pass leaves under a name. */
  ghost predicate PassedAt(store: Store, setup: Setup, after: Store, n: string) {
    if n in store then
      if store[n].target in setup.servers then n in after && after[n] == Templated(store[n], setup) else n !in after
    else
      && (n in after ==> exists s :: s in setup.servers && n == setup.child(s) && Fresh(after[n], setup, s))
      && (n !in after ==> forall s :: s in setup.servers ==> n != setup.child(s))
  }

  lemma KeptAreStored(store: Store, owned: seq<Child>, setup: Setup, targetOf: string -> string)
    requires Lists(owned, store) && Named(store, setup, targetOf) && Smooth(owned, setup)
    ensures var pruned := Pruned(Ensured(store, owned, setup, setup.servers), owned, setup);
            forall i :: 0 <= i < |Kept(owned, setup)| ==>
              var c := Kept(owned, setup)[i]; c.name in pruned && pruned[c.name] == c
  {
    var ensured := Ensured(store, owned, setup, setup.servers);
    forall i | 0 <= i < |Kept(owned, setup)|
      ensures var c := Kept(owned, setup)[i];
              c.name in Pruned(ensured, owned, setup) && Pruned(ensured, owned, setup)[c.name] == c
    {
      var c := Kept(owned, setup)[i];
      KeptAndDeletedPartition(owned, setup);
      assert c in Kept(owned, setup);
      EnsuredPoint(store, owned, setup, setup.servers, targetOf, c.name);
      PrunedPoint(ensured, owned, setup, c.name);
    }
  }

  /** Which stored names survive the pruning. */
  lemma PrunedKeeps(store: Store, owned: seq<Child>, setup: Setup, targetOf: string -> string, n: string)
    requires Lists(owned, store) && Named(store, setup, targetOf) && Smooth(owned, setup)
    ensures var pruned, ensured := Pruned(Ensured(store, owned, setup, setup.servers), owned, setup), Ensured(store, owned, setup, setup.servers);
            && (n in pruned <==> n in ensured && (n in store ==> store[n].target in setup.servers))
            && (n in pruned ==> pruned[n] == ensured[n])
  {
    var ensured := Ensured(store, owned, setup, setup.servers);
    EnsuredPoint(store, owned, setup, setup.servers, targetOf, n);
    PrunedPoint(ensured, owned, setup, n);
    if n in store {
      var i :| 0 <= i < |owned| && owned[i] == store[n];
      assert owned[i].name == n;
    }
  }

  lemma KeptNames(store: Store, owned: seq<Child>, setup: Setup, targetOf: string -> string, n: string)
    requires Lists(owned, store) && Named(store, setup, targetOf) && Smooth(owned, setup)
    ensures (exists i :: 0 <= i < |Kept(owned, setup)| && Kept(owned, setup)[i].name == n)
            <==> n in store && store[n].target in setup.servers
  {
    KeptAndDeletedPartition(owned, setup);
    var kept := Kept(owned, setup);
    if n in store && store[n].target in setup.servers {
      assert Keeps(store[n], setup) && store[n] in kept;
      var i :| 0 <= i < |kept| && kept[i] == store[n];
      assert kept[i].name == n;
    }
    if i :| 0 <= i < |kept| && kept[i].name == n {
      assert kept[i] in kept;
      assert kept[i] in owned;
      var j :| 0 <= j < |owned| && owned[j] == kept[i];
    }
  }

  lemma PassPoint(store: Store, owned: seq<Child>, setup: Setup, targetOf: string -> string, n: string)
    requires Lists(owned, store) && Named(store, setup, targetOf) && Smooth(owned, setup)
    ensures PassedAt(store, setup, Pass(store, owned, setup), n)
  {
    var ensured := Ensured(store, owned, setup, setup.servers);
    EnsuredPoint(store, owned, setup, setup.servers, targetOf, n);
    PrunedKeeps(store, owned, setup, targetOf, n);
    KeptAreStored(store, owned, setup, targetOf);
    KeptNames(store, owned, setup, targetOf, n);
    PatchedPoint(Pruned(ensured, owned, setup), Kept(owned, setup), setup, n);
  }

  /** The children are exactly one per server, named after it. */
  ghost predicate OnePerServer(store: Store, setup: Setup) {
    && (forall n :: n in store ==> store[n].target in setup.servers && n == setup.child(store[n].target))
    && (forall s :: s in setup.servers ==> setup.child(s) in store && store[setup.child(s)].target == s)
  }

  /** A smooth pass makes the targets of the children equal to the selected servers. */
  lemma PassMatchesServers(store: Store, owned: seq<Child>, setup: Setup, targetOf: string -> string)
    requires Lists(owned, store) && Named(store, setup, targetOf) && Smooth(owned, setup)
    ensures var after := Pass(store, owned, setup); OnePerServer(after, setup) && Named(after, setup, targetOf)
  {
    var after := Pass(store, owned, setup);
    forall n | n in after
      ensures after[n].target in setup.servers && n == setup.child(after[n].target)
      ensures after[n].name == n && after[n].target != "" && targetOf(n) == after[n].target
    {
      PassPoint(store, owned, setup, targetOf, n);
    }
    forall s | s in setup.servers
      ensures setup.child(s) in after && after[setup.child(s)].target == s
    {
      PassPoint(store, owned, setup, targetOf, setup.child(s));
    }
  }

  /** A child the pass does not touch any more. */
  predicate Settled(c: Child, setup: Setup) {
    c.state == InProgress || c.template == setup.template
  }

  lemma PassSettles(store: Store, owned: seq<Child>, setup: Setup, targetOf: string -> string, n: string)
    requires Lists(owned, store) && Named(store, setup, targetOf) && Smooth(owned, setup)
    ensures var after := Pass(store, owned, setup); n in after ==> Settled(after[n], setup)
  {
    PassPoint(store, owned, setup, targetOf, n);
  }

  /** A second pass over what the first one left changes nothing. */
  lemma PassIsFixpoint(store: Store, owned: seq<Child>, setup: Setup, targetOf: string -> string, again: seq<Child>)
    requires Lists(owned, store) && Named(store, setup, targetOf) && Smooth(owned, setup)
    requires Lists(again, Pass(store, owned, setup))
    ensures Pass(Pass(store, owned, setup), again, setup) == Pass(store, owned, setup)
  {
    var after := Pass(store, owned, setup);
    PassMatchesServers(store, owned, setup, targetOf);
    assert Smooth(again, setup);
    var twice := Pass(after, again, setup);
    forall n: string
      ensures n in twice <==> n in after
      ensures n in after ==> twice[n] == after[n]
    {
      PassPoint(after, again, setup, targetOf, n);
      PassSettles(store, owned, setup, targetOf, n);
    }
  }

  /** Patching the listing instead of the kept children brings a deleted child back. */
  lemma PatchingDeletedRecreates(store: Store, setup: Setup, c: Child)
    requires store == map[c.name := c] && setup.stuck == {} && !Keeps(c, setup) && c.state != InProgress
    ensures c.name !in Pruned(store, [c], setup)
    ensures c.name in Patched(Pruned(store, [c], setup), [c], setup)
    ensures Kept([c], setup) == [] && c.name !in Patched(Pruned(store, [c], setup), Kept([c], setup), setup)
  {
    assert [c][..0] == [];
    PrunedPoint(store, [c], setup, c.name);
  }
}
