/**
 Maintenance windows for all servers of a BMC: references to one ServerMaintenance per server are
 requested, repaired and checked before the BMC is touched. Shared by settings and versions, which
 differ in what they make of missing references.
 */
module Maintenance {
  import opened Options

  /** A ServerMaintenance: the server it is for, and whether that server is in maintenance. */
  datatype Maint = Maint(target: string, active: bool)

  type Store = map<string, Maint>

  datatype Kind = Settings | Version

  // ---------------------------------------------------------------- the check

  predicate InMaintenance(item: Option<string>, store: Store, servers: seq<string>) {
    && item.Some? && item.value in store
    && store[item.value].target != "" && store[item.value].target in servers
    && store[item.value].active
  }

  /** Whether the maintenance of all servers is taken as granted; an item may lack its reference. */
  function Granted(kind: Kind, refs: Option<seq<Option<string>>>, store: Store, servers: seq<string>): bool {
    match refs
    case None => kind == Version
    case Some(items) => |items| == |servers| && forall i :: 0 <= i < |items| ==> InMaintenance(items[i], store, servers)
  }

  method CheckIfMaintenanceGranted(kind: Kind, refs: Option<seq<Option<string>>>, store: Store, servers: seq<string>)
    returns (granted: bool)
    ensures granted == Granted(kind, refs, store, servers)
  {
    if refs.None? {
      return kind == Version;
    }
    var items := refs.value;
    if |items| != |servers| {
      return false;
    }
    var serverNames := set s | s in servers;
    var waiting: seq<string> := [];
    for i := 0 to |items|
      invariant forall j :: 0 <= j < i ==>
                  items[j].Some? && items[j].value in store
                  && store[items[j].value].target != "" && store[items[j].value].target in servers
      invariant waiting == [] <==> forall j :: 0 <= j < i ==> InMaintenance(items[j], store, servers)
    {
      if items[i].None? || items[i].value !in store {
        return false;
      }
      var maintenance := store[items[i].value];
      if maintenance.target == "" || maintenance.target !in serverNames {
        return false;
      }
      if !maintenance.active {
        waiting := waiting + [items[i].value];
      }
    }
    granted := waiting == [];
  }

  predicate Distinct<T(==)>(names: seq<T>) {
    forall i, j :: 0 <= i < j < |names| ==> names[i] != names[j]
  }

  /** Every server is in maintenance through one of the references. */
  ghost predicate Covers(items: seq<Option<string>>, store: Store, servers: seq<string>) {
    forall s :: s in servers ==>
      exists i :: 0 <= i < |items| && items[i].Some? && items[i].value in store && store[items[i].value] == Maint(s, true)
  }

  function Targets(items: seq<Option<string>>, store: Store): (ts: seq<string>)
    requires forall i :: 0 <= i < |items| ==> items[i].Some? && items[i].value in store
    ensures |ts| == |items| && forall i :: 0 <= i < |ts| ==> ts[i] == store[items[i].value].target
  {
    if items == [] then [] else [store[items[0].value].target] + Targets(items[1..], store)
  }

  lemma {:induction false} DistinctCount<T>(names: seq<T>)
    ensures |set n | n in names| <= |names|
    ensures |set n | n in names| == |names| <==> Distinct(names)
  {
    var all := set n | n in names;
    if names != [] {
      var last := |names| - 1;
      var front := set n | n in names[..last];
      DistinctCount(names[..last]);
      assert names == names[..last] + [names[last]];
      assert all == front + {names[last]};
      if Distinct(names) {
        assert names[last] !in front;
      }
      if names[last] !in front && Distinct(names[..last]) {
        forall i, j | 0 <= i < j < |names|
          ensures names[i] != names[j]
        {
          assert names[i] in names[..last];
        }
      }
      if Distinct(names) {
        assert Distinct(names[..last]);
      }
    }
  }

  /** As many names out of a set of distinct servers: they are all of them exactly when they are distinct. */
  lemma Pigeonhole(names: seq<string>, servers: seq<string>)
    requires Distinct(servers) && |names| == |servers| && forall n :: n in names ==> n in servers
    ensures Distinct(names) <==> forall s :: s in servers ==> s in names
  {
    var a, b := set n | n in names, set s | s in servers;
    DistinctCount(names);
    DistinctCount(servers);
    assert a <= b;
    if Distinct(names) {
      Subset(a, b);
      forall s | s in servers
        ensures s in names
      {
        assert s in b;
      }
    }
    if forall s :: s in servers ==> s in names {
      assert b <= a;
      assert a == b;
    }
  }

  lemma Subset<T>(a: set<T>, b: set<T>)
    requires a <= b && |a| == |b|
    ensures a == b
  {
    if a != b {
      var x :| x in b && x !in a;
      assert a <= b - {x};
      SubsetCard(a, b - {x});
    }
  }

  lemma {:induction false} SubsetCard<T>(a: set<T>, b: set<T>)
    requires a <= b
    ensures |a| <= |b|
  {
    if a != {} {
      var x :| x in a;
      SubsetCard(a - {x}, b - {x});
    }
  }

  /** A grant on existing references covers every server exactly when no two of them are for the same one. */
  lemma GrantCoversIff(kind: Kind, items: seq<Option<string>>, store: Store, servers: seq<string>)
    requires Distinct(servers) && Granted(kind, Some(items), store, servers)
    ensures forall i :: 0 <= i < |items| ==> items[i].Some? && items[i].value in store
    ensures Covers(items, store, servers) <==> Distinct(Targets(items, store))
  {
    forall i | 0 <= i < |items|
      ensures items[i].Some? && items[i].value in store && store[items[i].value].target in servers && store[items[i].value].active
    {
      assert InMaintenance(items[i], store, servers);
    }
    var ts := Targets(items, store);
    Pigeonhole(ts, servers);
    CoversMeansTargets(items, store, servers);
  }

  lemma CoversMeansTargets(items: seq<Option<string>>, store: Store, servers: seq<string>)
    requires forall i :: 0 <= i < |items| ==> items[i].Some? && items[i].value in store && store[items[i].value].active
    ensures Covers(items, store, servers) <==> forall s :: s in servers ==> s in Targets(items, store)
  {
    var ts := Targets(items, store);
    if Covers(items, store, servers) {
      forall s | s in servers
        ensures s in ts
      {
        var i :| 0 <= i < |items| && items[i].Some? && items[i].value in store && store[items[i].value] == Maint(s, true);
        assert ts[i] == s;
      }
    }
    if forall s :: s in servers ==> s in ts {
      forall s | s in servers
        ensures exists i :: 0 <= i < |items| && items[i].Some? && items[i].value in store && store[items[i].value] == Maint(s, true)
      {
        var i :| 0 <= i < |ts| && ts[i] == s;
        assert store[items[i].value] == Maint(s, true);
      }
    }
  }

  /** The positions of the references that cover the servers one by one. */
  lemma {:induction false} Coverers(items: seq<Option<string>>, store: Store, servers: seq<string>) returns (at: seq<nat>)
    requires Covers(items, store, servers)
    ensures |at| == |servers|
    ensures forall k :: 0 <= k < |at| ==>
              at[k] < |items| && items[at[k]].Some? && items[at[k]].value in store && store[items[at[k]].value] == Maint(servers[k], true)
  {
    at := [];
    if servers != [] {
      var last := |servers| - 1;
      assert forall s :: s in servers[..last] ==> s in servers;
      at := Coverers(items, store, servers[..last]);
      assert servers[last] in servers;
      var i :| 0 <= i < |items| && items[i].Some? && items[i].value in store && store[items[i].value] == Maint(servers[last], true);
      at := at + [i];
    }
  }

  /** As many references as servers that cover every one of them are granted. */
  lemma CoveringIsGranted(kind: Kind, items: seq<Option<string>>, store: Store, servers: seq<string>)
    requires Distinct(servers) && "" !in servers && |items| == |servers| && Covers(items, store, servers)
    ensures Granted(kind, Some(items), store, servers)
  {
    var at := Coverers(items, store, servers);
    assert Distinct(at) by {
      forall i, j | 0 <= i < j < |at|
        ensures at[i] != at[j]
      {
        assert servers[i] != servers[j];
      }
    }
    DistinctCount(at);
    var used := set i | i in at;
    var all := UpTo(|items|);
    Subset(used, all);
    forall i | 0 <= i < |items|
      ensures InMaintenance(items[i], store, servers)
    {
      assert i in all;
      var k :| 0 <= k < |at| && at[k] == i;
    }
  }

  function UpTo(n: nat): (all: set<nat>)
    ensures forall i: nat :: i in all <==> i < n
    ensures |all| == n
  {
    if n == 0 then {} else UpTo(n - 1) + {n - 1}
  }

  /** A grant on references needs one active maintenance of a server of the BMC behind each, and as many as servers. */
  lemma GrantedIff(kind: Kind, items: seq<Option<string>>, store: Store, servers: seq<string>)
    ensures Granted(kind, Some(items), store, servers) <==>
              && |items| == |servers|
              && forall i :: 0 <= i < |items| ==>
                   items[i].Some? && items[i].value in store && store[items[i].value].active
                   && store[items[i].value].target in servers && store[items[i].value].target != ""
  {
    if Granted(kind, Some(items), store, servers) {
      forall i | 0 <= i < |items|
        ensures InMaintenance(items[i], store, servers)
      {
      }
    }
  }

  /** A version takes missing references as granted, whatever the servers do. */
  lemma VersionGrantsWithoutReferences(store: Store, servers: seq<string>)
    requires servers != []
    ensures Granted(Version, None, store, servers) && !Covers([], store, servers)
    ensures !Granted(Settings, None, store, servers)
  {
    assert servers[0] in servers;
  }

  // ---------------------------------------------------------------- child names

  const NAME_LIMIT := 253

  /** The name of a child object; names that would be too long end in a hash of at most ten characters. */
  function VersionSetChildName(setName: string, target: string, hash: string -> string): (name: string)
    requires forall s :: |hash(s)| <= 10
    ensures |name| <= NAME_LIMIT
  {
    var name := setName + "-" + target;
    if |name| <= NAME_LIMIT then name
    else
      var suffix := "-" + hash(name);
      name[..NAME_LIMIT - |suffix|] + suffix
  }

  /** The target a child name that fits was made from. */
  function TargetOfName(setName: string, name: string): string {
    if |name| > |setName| then name[|setName| + 1..] else ""
  }

  predicate NameFits(setName: string, target: string) {
    |setName| + 1 + |target| <= NAME_LIMIT
  }

  /** A name of at most 253 characters is the plain one; a longer one is cut to exactly 253 and keeps its start. */
  lemma ChildNameIs(setName: string, target: string, hash: string -> string)
    requires forall s :: |hash(s)| <= 10
    ensures var plain, name := setName + "-" + target, VersionSetChildName(setName, target, hash);
            && (NameFits(setName, target) <==> |plain| <= 253)
            && (if |plain| <= 253 then name == plain
                else |name| == 253 && name[..242] == plain[..242] && exists n :: 242 <= n < 253 && name[n..] == "-" + hash(plain))
  {
    var plain, name := setName + "-" + target, VersionSetChildName(setName, target, hash);
    if |plain| > 253 {
      var suffix := "-" + hash(plain);
      assert name[253 - |suffix|..] == suffix;
    }
  }

  /** Names that fit tell their targets apart. */
  lemma ChildNameTellsTarget(setName: string, target: string, hash: string -> string)
    requires forall s :: |hash(s)| <= 10
    requires NameFits(setName, target)
    ensures TargetOfName(setName, VersionSetChildName(setName, target, hash)) == target
  {
    var name := setName + "-" + target;
    assert name[|setName| + 1..] == target;
  }

  // ---------------------------------------------------------------- the request

  /** The last of the names whose maintenance is for a server. */
  function LastFor(names: seq<string>, store: Store, server: string): (r: Option<string>)
    requires forall i :: 0 <= i < |names| ==> names[i] in store
    ensures r.Some? ==> r.value in store && store[r.value].target == server
  {
    if names == [] then None
    else if store[names[|names| - 1]].target == server then Some(names[|names| - 1])
    else LastFor(names[..|names| - 1], store, server)
  }

  /** What the request is given besides the references: names of children and the objects it owns. */
  datatype Setup = Setup(kind: Kind, servers: seq<string>, child: string -> string, noted: bool, owned: seq<string>, refused: set<string>)

  datatype Reply = Reply(refs: Option<seq<string>>, store: Store, requeue: bool, failed: bool)

  function Present(refs: seq<string>, store: Store): (r: seq<string>)
    ensures forall n :: n in r ==> n in store
  {
    if refs == [] then []
    else (if refs[0] in store then [refs[0]] else []) + Present(refs[1..], store)
  }

  predicate AllIn(names: seq<string>, store: Store) {
    forall i :: 0 <= i < |names| ==> names[i] in store
  }

  /** The references chosen so far, the store they need, and whether a creation failed. */
  datatype Prepared = Prepared(refs: seq<string>, store: Store, failed: bool)

  /** One more server: its maintenance if it has one, otherwise its child is created or retargeted. */
  function PrepareOne(p: Prepared, server: string, known: Option<string>, setup: Setup): Prepared {
    if known.Some? then p.(refs := p.refs + [known.value])
    else if server in setup.refused then p.(failed := true)
    else
      var name := setup.child(server);
      Prepared(p.refs + [name], p.store[name := Maint(server, name in p.store && p.store[name].active)], p.failed)
  }

  function Prepare(servers: seq<string>, names: seq<string>, store: Store, setup: Setup): Prepared
    requires AllIn(names, store)
  {
    if servers == [] then Prepared([], store, false)
    else
      var last := |servers| - 1;
      PrepareOne(Prepare(servers[..last], names, store, setup), servers[last], LastFor(names, store, servers[last]), setup)
  }

  function Request(refs: Option<seq<string>>, store: Store, setup: Setup): Reply {
    if refs.Some? && |refs.value| == |setup.servers| then
      if AllIn(refs.value, store) then Reply(refs, store, setup.kind == Settings && !setup.noted, false)
      else
        var left := Present(refs.value, store);
        Reply(if left == [] then None else Some(left), store, true, false)
    else
      var names := refs.GetOr([]) + setup.owned;
      if !AllIn(names, store) then Reply(refs, store, false, true)
      else
        var p := Prepare(setup.servers, names, store, setup);
        if p.failed then Reply(refs, p.store, false, true) else Reply(Some(p.refs), p.store, true, false)
  }

  /** The object that carries the references, and the stored maintenances. */
  class Requester {
    var refs: Option<seq<string>>
    var store: Store

    constructor (store: Store)
      ensures refs == None && this.store == store
    {
      refs, this.store := None, store;
    }

    method PruneMissing(present: seq<string>)
      modifies this`refs
      ensures refs == var left := Present(present, store); if left == [] then None else Some(left)
    {
      var left: seq<string> := [];
      for i := 0 to |present|
        invariant Present(present, store) == left + Present(present[i..], store)
      {
        assert present[i..][1..] == present[i + 1..];
        if present[i] in store {
          left := left + [present[i]];
        }
      }
      assert left == Present(present, store);
      refs := if left == [] then None else Some(left);
    }

    /** Which maintenance each server already has; later names win. */
    method CollectKnown(names: seq<string>) returns (known: map<string, string>)
      requires AllIn(names, store)
      ensures forall s :: s in known <==> LastFor(names, store, s).Some?
      ensures forall s :: s in known ==> LastFor(names, store, s) == Some(known[s])
    {
      known := map[];
      for i := 0 to |names|
        invariant forall s :: s in known <==> LastFor(names[..i], store, s).Some?
        invariant forall s :: s in known ==> LastFor(names[..i], store, s) == Some(known[s])
      {
        assert names[..i + 1][..i] == names[..i];
        known := known[store[names[i]].target := names[i]];
      }
      assert names[..|names|] == names;
    }

    method CreateMissing(setup: Setup, names: seq<string>) returns (failed: bool)
      requires AllIn(names, store)
      modifies this
      ensures var p := Prepare(setup.servers, names, old(store), setup);
              failed == p.failed && store == p.store && refs == if failed then old(refs) else Some(p.refs)
    {
      var known := CollectKnown(names);
      var chosen: seq<string> := [];
      failed := false;
      ghost var before := store;
      for i := 0 to |setup.servers|
        invariant refs == old(refs)
        invariant Prepared(chosen, store, failed) == Prepare(setup.servers[..i], names, before, setup)
      {
        var server := setup.servers[i];
        assert setup.servers[..i + 1][..i] == setup.servers[..i];
        if server in known {
          chosen := chosen + [known[server]];
        } else if server in setup.refused {
          failed := true;
        } else {
          var name := setup.child(server);
          store := store[name := Maint(server, name in store && store[name].active)];
          chosen := chosen + [name];
        }
      }
      assert setup.servers[..|setup.servers|] == setup.servers;
      if !failed {
        refs := Some(chosen);
      }
    }

    method RequestMaintenanceOnServers(setup: Setup) returns (requeue: bool, failed: bool)
      modifies this
      ensures Reply(refs, store, requeue, failed) == Request(old(refs), old(store), setup)
    {
      if refs.Some? && |refs.value| == |setup.servers| {
        if AllIn(refs.value, store) {
          return setup.kind == Settings && !setup.noted, false;
        }
        PruneMissing(refs.value);
        return true, false;
      }
      var names := refs.GetOr([]) + setup.owned;
      if !AllIn(names, store) {
        return false, true;
      }
      failed := CreateMissing(setup, names);
      return !failed, failed;
    }
  }

  // ---------------------------------------------------------------- runs

  /** A name stands for one server: no maintenance is ever given another target. */
  ghost predicate Stable(store: Store, targetOf: string -> string) {
    forall n :: n in store ==> store[n].target == targetOf(n)
  }

  ghost predicate SetupOk(setup: Setup, targetOf: string -> string) {
    Distinct(setup.servers) && forall s :: s in setup.servers ==> targetOf(setup.child(s)) == s
  }

  /** Child names that fit give every server its own name. */
  lemma FittingNamesAreOk(setup: Setup, setName: string, hash: string -> string)
    requires (forall s :: |hash(s)| <= 10) && Distinct(setup.servers)
    requires forall s :: s in setup.servers ==> NameFits(setName, s) && setup.child(s) == VersionSetChildName(setName, s, hash)
    ensures SetupOk(setup, name => TargetOfName(setName, name))
  {
    forall s | s in setup.servers
      ensures TargetOfName(setName, setup.child(s)) == s
    {
      ChildNameTellsTarget(setName, s, hash);
    }
  }

  predicate DistinctTargets(refs: Option<seq<string>>, targetOf: string -> string) {
    refs.Some? ==> forall i, j :: 0 <= i < j < |refs.value| ==> targetOf(refs.value[i]) != targetOf(refs.value[j])
  }

  lemma {:induction false} PrepareTargets(servers: seq<string>, names: seq<string>, store: Store, setup: Setup, targetOf: string -> string)
    requires AllIn(names, store) && Stable(store, targetOf)
    requires forall s :: s in servers ==> targetOf(setup.child(s)) == s
    ensures var p := Prepare(servers, names, store, setup);
            && Stable(p.store, targetOf)
            && (!p.failed ==> |p.refs| == |servers| && forall i :: 0 <= i < |servers| ==> targetOf(p.refs[i]) == servers[i])
  {
    if servers != [] {
      var last := |servers| - 1;
      PrepareTargets(servers[..last], names, store, setup, targetOf);
      assert servers[last] in servers;
    }
  }

  lemma {:induction false} PresentKeepsDistinct(refs: seq<string>, store: Store, targetOf: string -> string)
    requires DistinctTargets(Some(refs), targetOf)
    ensures DistinctTargets(Some(Present(refs, store)), targetOf)
    ensures forall n :: n in Present(refs, store) ==> n in refs
  {
    if refs != [] {
      PresentKeepsDistinct(refs[1..], store, targetOf);
      var rest := Present(refs[1..], store);
      forall i | 0 <= i < |rest|
        ensures targetOf(rest[i]) != targetOf(refs[0])
      {
        assert rest[i] in refs[1..];
      }
    }
  }

  /** A request, also one whose patch is lost, keeps the targets of the references distinct. */
  lemma RequestKeepsDistinct(refs: Option<seq<string>>, store: Store, setup: Setup, targetOf: string -> string)
    requires Stable(store, targetOf) && SetupOk(setup, targetOf) && DistinctTargets(refs, targetOf)
    ensures var reply := Request(refs, store, setup);
            Stable(reply.store, targetOf) && DistinctTargets(reply.refs, targetOf)
  {
    if refs.Some? && |refs.value| == |setup.servers| {
      PresentKeepsDistinct(refs.value, store, targetOf);
    } else {
      var names := refs.GetOr([]) + setup.owned;
      if AllIn(names, store) {
        PrepareTargets(setup.servers, names, store, setup, targetOf);
      }
    }
  }

  /** What happens to the references and the store: a request, possibly without its patch, or anything else to the store. */
  datatype Step = Ask(setup: Setup, patched: bool) | Elsewhere(store: Store) | Drop

  datatype State = State(refs: Option<seq<string>>, store: Store)

  function Next(s: State, step: Step): State {
    match step
    case Ask(setup, patched) =>
      var reply := Request(s.refs, s.store, setup);
      State(if patched then reply.refs else s.refs, reply.store)
    case Elsewhere(store) => State(s.refs, store)
    case Drop => State(None, s.store)
  }

  function Run(s: State, steps: seq<Step>): State {
    if steps == [] then s else Next(Run(s, steps[..|steps| - 1]), steps[|steps| - 1])
  }

  ghost predicate StepOk(step: Step, targetOf: string -> string) {
    match step
    case Ask(setup, _) => SetupOk(setup, targetOf)
    case Elsewhere(store) => Stable(store, targetOf)
    case Drop => true
  }

  lemma {:induction false} RunKeepsDistinct(s: State, steps: seq<Step>, targetOf: string -> string)
    requires s.refs.None? && Stable(s.store, targetOf)
    requires forall i :: 0 <= i < |steps| ==> StepOk(steps[i], targetOf)
    ensures var end := Run(s, steps); Stable(end.store, targetOf) && DistinctTargets(end.refs, targetOf)
  {
    if steps != [] {
      var before, step := Run(s, steps[..|steps| - 1]), steps[|steps| - 1];
      RunKeepsDistinct(s, steps[..|steps| - 1], targetOf);
      assert StepOk(step, targetOf);
      if step.Ask? {
        RequestKeepsDistinct(before.refs, before.store, step.setup, targetOf);
      }
    }
  }

  function Items(refs: seq<string>): (items: seq<Option<string>>)
    ensures |items| == |refs| && forall i :: 0 <= i < |items| ==> items[i] == Some(refs[i])
  {
    if refs == [] then [] else [Some(refs[0])] + Items(refs[1..])
  }

  /**
   Starting without references, along every run of requests, cut-offs and changes elsewhere: when the
   maintenance is granted on existing references, every server of the BMC is in maintenance.
   */
  lemma GrantCoversEveryServer(s: State, steps: seq<Step>, kind: Kind, servers: seq<string>, targetOf: string -> string)
    requires s.refs.None? && Stable(s.store, targetOf) && Distinct(servers)
    requires forall i :: 0 <= i < |steps| ==> StepOk(steps[i], targetOf)
    ensures var end := Run(s, steps);
            end.refs.Some? && Granted(kind, Some(Items(end.refs.value)), end.store, servers) ==>
              Covers(Items(end.refs.value), end.store, servers)
  {
    RunKeepsDistinct(s, steps, targetOf);
    var end := Run(s, steps);
    if end.refs.Some? && Granted(kind, Some(Items(end.refs.value)), end.store, servers) {
      var items := Items(end.refs.value);
      GrantCoversIff(kind, items, end.store, servers);
      var ts := Targets(items, end.store);
      forall i | 0 <= i < |ts|
        ensures ts[i] == targetOf(end.refs.value[i])
      {
        assert items[i] == Some(end.refs.value[i]);
      }
    }
  }

  /** A version proceeds only on references: a request that does not ask to come back leaves one per server. */
  lemma RequestedBeforeChecked(refs: Option<seq<string>>, store: Store, setup: Setup)
    ensures var reply := Request(refs, store, setup);
            !reply.requeue && !reply.failed ==> reply.refs.Some? && |reply.refs.value| == |setup.servers|
  {
  }

  /** Two references to the same server are granted although another server is not in maintenance. */
  lemma SharedTargetIsGranted(kind: Kind, store: Store, a: string, b: string, x: string, y: string)
    requires a != b && x in store && y in store && store[x] == Maint(a, true) && store[y] == Maint(a, true) && a != ""
    ensures Granted(kind, Some([Some(x), Some(y)]), store, [a, b]) && !Covers([Some(x), Some(y)], store, [a, b])
  {
    assert b in [a, b];
  }

  // ---------------------------------------------------------------- what a request makes

  /** The last name whose maintenance is for the server, if there is one. */
  lemma {:induction false} LastForIff(names: seq<string>, store: Store, server: string)
    requires AllIn(names, store)
    ensures LastFor(names, store, server).None? <==> forall i :: 0 <= i < |names| ==> store[names[i]].target != server
    ensures forall i :: 0 <= i < |names| && store[names[i]].target == server
                        && (forall j :: i < j < |names| ==> store[names[j]].target != server) ==>
              LastFor(names, store, server) == Some(names[i])
  {
    if names != [] {
      var last := |names| - 1;
      LastForIff(names[..last], store, server);
      assert forall i :: 0 <= i < last ==> names[..last][i] == names[i];
    }
  }

  /** A server that gets a child: it has no maintenance, and its creation does not fail. */
  predicate GetsChild(server: string, names: seq<string>, store: Store, setup: Setup)
    requires AllIn(names, store)
  {
    LastFor(names, store, server).None? && server !in setup.refused
  }

  /** Preparing keeps every stored maintenance and makes exactly the children of the servers that need one. */
  lemma {:induction false} MakesChildrenIff(servers: seq<string>, names: seq<string>, store: Store, setup: Setup, targetOf: string -> string, n: string)
    requires AllIn(names, store) && Stable(store, targetOf) && forall s :: s in servers ==> targetOf(setup.child(s)) == s
    ensures var p := Prepare(servers, names, store, setup);
            && (n in store ==> n in p.store && p.store[n] == store[n])
            && (n !in store ==> (n in p.store <==> exists s :: s in servers && GetsChild(s, names, store, setup) && setup.child(s) == n))
            && (n !in store && n in p.store ==> p.store[n] == Maint(targetOf(n), false))
  {
    if servers != [] {
      var last := |servers| - 1;
      MakesChildrenIff(servers[..last], names, store, setup, targetOf, n);
      assert servers == servers[..last] + [servers[last]];
      assert targetOf(setup.child(servers[last])) == servers[last];
    }
  }

  /** A creation fails exactly for a server that needs a child and is refused one. */
  lemma {:induction false} PrepareFailsIff(servers: seq<string>, names: seq<string>, store: Store, setup: Setup)
    requires AllIn(names, store)
    ensures Prepare(servers, names, store, setup).failed <==>
              exists s :: s in servers && LastFor(names, store, s).None? && s in setup.refused
  {
    if servers != [] {
      var last := |servers| - 1;
      PrepareFailsIff(servers[..last], names, store, setup);
      assert servers == servers[..last] + [servers[last]];
    }
  }

  /** Each reference is the maintenance the server already has, or its child. */
  lemma {:induction false} ReferencesAre(servers: seq<string>, names: seq<string>, store: Store, setup: Setup)
    requires AllIn(names, store) && !Prepare(servers, names, store, setup).failed
    ensures var refs := Prepare(servers, names, store, setup).refs;
            && |refs| == |servers|
            && forall i :: 0 <= i < |refs| ==> refs[i] == LastFor(names, store, servers[i]).GetOr(setup.child(servers[i]))
  {
    if servers != [] {
      ReferencesAre(servers[..|servers| - 1], names, store, setup);
    }
  }

  /** Repairing keeps the references whose maintenance exists. */
  lemma {:induction false} PresentIff(refs: seq<string>, store: Store, n: string)
    ensures n in Present(refs, store) <==> n in refs && n in store
    ensures AllIn(refs, store) ==> Present(refs, store) == refs
  {
    if refs != [] {
      PresentIff(refs[1..], store, n);
      assert refs == [refs[0]] + refs[1..];
      if AllIn(refs, store) {
        assert forall i :: 0 <= i < |refs| - 1 ==> refs[1..][i] == refs[i + 1];
      }
    }
  }

  /** References of the right number that lost some maintenances are repaired: the rest stays, or nothing. */
  lemma RequestRepairs(refs: seq<string>, store: Store, setup: Setup)
    requires |refs| == |setup.servers| && !AllIn(refs, store)
    ensures var reply := Request(Some(refs), store, setup);
            && reply.store == store && reply.requeue && !reply.failed
            && (reply.refs.None? <==> forall n :: n in refs ==> n !in store)
            && (reply.refs.Some? ==> reply.refs.value == Present(refs, store))
  {
    forall n | n in refs && n in store
      ensures Present(refs, store) != []
    {
      PresentIff(refs, store, n);
    }
    if Present(refs, store) != [] {
      PresentIff(refs, store, Present(refs, store)[0]);
    }
  }

  /** A server whose child is refused fails the request: the references stay, and no requeue is asked for. */
  lemma RequestFailsOnRefusal(refs: Option<seq<string>>, store: Store, setup: Setup, server: string)
    requires (refs.Some? ==> |refs.value| != |setup.servers|) && AllIn(refs.GetOr([]) + setup.owned, store)
    requires server in setup.servers && server in setup.refused && LastFor(refs.GetOr([]) + setup.owned, store, server).None?
    ensures var reply := Request(refs, store, setup); reply.refs == refs && reply.failed && !reply.requeue
  {
    PrepareFailsIff(setup.servers, refs.GetOr([]) + setup.owned, store, setup);
  }

  /** Too few references of which one lost its maintenance: the request fails and changes nothing. */
  lemma RequestFailsOnMissing(refs: seq<string>, store: Store, setup: Setup)
    requires |refs| != |setup.servers| && !AllIn(refs, store)
    ensures Request(Some(refs), store, setup) == Reply(Some(refs), store, false, true)
  {
    var i :| 0 <= i < |refs| && refs[i] !in store;
    assert (refs + setup.owned)[i] == refs[i];
  }

  /**
   Two requests that nothing disturbs settle: the first makes one reference per server, each to an existing
   maintenance of that server, and the second asks for nothing more.
   */
  lemma RequestSettles(store: Store, setup: Setup, targetOf: string -> string)
    requires Stable(store, targetOf) && SetupOk(setup, targetOf) && AllIn(setup.owned, store)
    requires setup.refused == {} && (setup.kind == Settings ==> setup.noted)
    ensures var first := Request(None, store, setup);
            && first.refs.Some? && first.requeue && !first.failed && |first.refs.value| == |setup.servers|
            && (forall i :: 0 <= i < |setup.servers| ==>
                  first.refs.value[i] in first.store && first.store[first.refs.value[i]].target == setup.servers[i])
            && Request(first.refs, first.store, setup) == Reply(first.refs, first.store, false, false)
  {
    var names := [] + setup.owned;
    assert names == setup.owned;
    PrepareFailsIff(setup.servers, names, store, setup);
    PrepareTargets(setup.servers, names, store, setup, targetOf);
    ReferencesAre(setup.servers, names, store, setup);
    var p := Prepare(setup.servers, names, store, setup);
    forall i | 0 <= i < |p.refs|
      ensures p.refs[i] in p.store && p.store[p.refs[i]].target == setup.servers[i]
    {
      MakesChildrenIff(setup.servers, names, store, setup, targetOf, p.refs[i]);
    }
  }
}
