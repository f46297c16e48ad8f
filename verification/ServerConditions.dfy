/**
 Conditions of a Server that several controllers change at once: each call reads the object, changes its
 own condition type, and sends the whole list back in a patch that is accepted only at the version it
 read. A merge patch replaces a list whole (section 2 of RFC 7396), so the version check is what keeps
 the other types.
 */
module ServerConditions {
  import opened Options

  datatype Cond = Cond(kind: string, status: string, reason: string, message: string, generation: nat)

  function Find(conds: seq<Cond>, kind: string): Option<Cond> {
    if conds == [] then None else if conds[0].kind == kind then Some(conds[0]) else Find(conds[1..], kind)
  }

  /** Replaces the condition of the same kind in place, or appends. */
  function SetCondition(conds: seq<Cond>, c: Cond): seq<Cond> {
    if conds == [] then [c]
    else if conds[0].kind == c.kind then [c] + conds[1..]
    else [conds[0]] + SetCondition(conds[1..], c)
  }

  function RemoveCondition(conds: seq<Cond>, kind: string): seq<Cond> {
    if conds == [] then []
    else if conds[0].kind == kind then RemoveCondition(conds[1..], kind)
    else [conds[0]] + RemoveCondition(conds[1..], kind)
  }

  datatype Op = Set(c: Cond) | Remove(kind: string)

  function KindOf(op: Op): string {
    match op
    case Set(c) => c.kind
    case Remove(kind) => kind
  }

  function Apply(op: Op, conds: seq<Cond>): seq<Cond> {
    match op
    case Set(c) => SetCondition(conds, c)
    case Remove(kind) => RemoveCondition(conds, kind)
  }

  function Outcome(op: Op): Option<Cond> {
    match op
    case Set(c) => Some(c)
    case Remove(_) => None
  }

  /** An operation decides its own kind and leaves every other kind as it was. */
  lemma {:induction false} ApplyIsLocal(op: Op, conds: seq<Cond>, kind: string)
    ensures Find(Apply(op, conds), kind) == if kind == KindOf(op) then Outcome(op) else Find(conds, kind)
  {
    if conds != [] {
      ApplyIsLocal(op, conds[1..], kind);
    }
  }

  /** The position of a kind, or the length when it is absent. */
  function IndexOf(conds: seq<Cond>, kind: string): (i: nat)
    ensures i <= |conds|
    ensures i < |conds| ==> conds[i].kind == kind
    ensures forall j :: 0 <= j < i ==> conds[j].kind != kind
  {
    if conds == [] || conds[0].kind == kind then 0 else 1 + IndexOf(conds[1..], kind)
  }

  /** Setting replaces in place or appends; the order of the list stays. */
  lemma {:induction false} SetsInPlace(conds: seq<Cond>, c: Cond)
    ensures var i := IndexOf(conds, c.kind); SetCondition(conds, c) == if i < |conds| then conds[i := c] else conds + [c]
    ensures Find(conds, c.kind) == var i := IndexOf(conds, c.kind); if i < |conds| then Some(conds[i]) else None
  {
    if conds != [] {
      SetsInPlace(conds[1..], c);
    }
  }

  /** Removing takes out the conditions of the kind and keeps the others in order. */
  lemma {:induction false} RemovesOnlyKind(a: seq<Cond>, b: seq<Cond>, kind: string)
    ensures RemoveCondition(a + b, kind) == RemoveCondition(a, kind) + RemoveCondition(b, kind)
  {
    if a == [] {
      assert a + b == b;
    } else {
      assert (a + b)[1..] == a[1..] + b;
      RemovesOnlyKind(a[1..], b, kind);
    }
  }

  lemma RemovesOne(c: Cond, kind: string)
    ensures RemoveCondition([c], kind) == if c.kind == kind then [] else [c]
  {
  }

  lemma {:induction false} RemoveAbsent(conds: seq<Cond>, kind: string)
    requires Find(conds, kind).None?
    ensures RemoveCondition(conds, kind) == conds
  {
    if conds != [] {
      RemoveAbsent(conds[1..], kind);
    }
  }

  // ---------------------------------------------------------------- one caller and its retries

  /** The stored object. Every accepted write, also of something else than the conditions, moves the version. */
  class Server {
    var version: nat
    var conds: seq<Cond>

    constructor (conds: seq<Cond>)
      ensures version == 0 && this.conds == conds
    {
      this.version, this.conds := 0, conds;
    }

    /** A whole-list merge patch guarded by the version of its base. */
    method Patch(base: nat, updated: seq<Cond>) returns (ok: bool)
      modifies this
      ensures ok == (base == old(version))
      ensures version == old(version) + (if ok then 1 else 0)
      ensures conds == if ok then updated else old(conds)
    {
      ok := base == version;
      if ok {
        version, conds := version + 1, updated;
      }
    }
  }

  /** The last of the lists that others wrote before attempt `n`. */
  function Before(conds: seq<Cond>, others: seq<Option<seq<Cond>>>, n: nat): seq<Cond>
    requires n <= |others|
  {
    if n == 0 then conds else others[n - 1].GetOr(conds)
  }

  /** The attempts that others spoil by writing between the read and the patch. */
  function Spoiled(others: seq<Option<seq<Cond>>>): (n: nat)
    ensures n <= |others|
    ensures n < |others| ==> others[n].None?
    ensures forall k :: 0 <= k < n ==> others[k].Some?
  {
    if others == [] || others[0].None? then 0 else 1 + Spoiled(others[1..])
  }

  /**
   Sets a condition; `others[k]` is what somebody else writes between the read and the patch of attempt
   `k`. The first undisturbed attempt commits on top of everything written before it.
   */
  method PatchServerCondition(server: Server, c: Cond, others: seq<Option<seq<Cond>>>) returns (ok: bool)
    modifies server
    ensures c.kind == "" ==> ok && server.conds == old(server.conds)
    ensures c.kind != "" ==>
              && ok == (Spoiled(others) < |others|)
              && var before := Before(old(server.conds), others, Spoiled(others));
              && server.conds == if ok then SetCondition(before, c) else before
  {
    if c.kind == "" {
      return true;
    }
    for k := 0 to |others|
      invariant k <= Spoiled(others)
      invariant server.conds == Before(old(server.conds), others, k)
    {
      var base, current := server.version, server.conds;
      if others[k].Some? {
        var _ := server.Patch(server.version, others[k].value);
      }
      ok := server.Patch(base, SetCondition(current, c));
      if ok {
        return true;
      }
    }
    return false;
  }

  /** The first attempt that finds the kind absent or is not disturbed. */
  function Settled(conds: seq<Cond>, others: seq<Option<seq<Cond>>>, kind: string, k: nat): (n: nat)
    requires k <= |others|
    ensures k <= n <= |others|
    ensures n < |others| ==> others[n].None? || Find(Before(conds, others, n), kind).None?
    ensures forall j :: k <= j < n ==> others[j].Some? && Find(Before(conds, others, j), kind).Some?
    decreases |others| - k
  {
    if k == |others| || others[k].None? || Find(Before(conds, others, k), kind).None? then k
    else Settled(conds, others, kind, k + 1)
  }

  /** Removes a condition; an absent kind needs no write, and an empty one nothing at all. */
  method RemoveServerCondition(server: Server, kind: string, others: seq<Option<seq<Cond>>>) returns (ok: bool)
    modifies server
    ensures kind == "" ==> ok && server.conds == old(server.conds)
    ensures kind != "" ==>
              var n := Settled(old(server.conds), others, kind, 0);
              var before := Before(old(server.conds), others, n);
              && ok == (n < |others|)
              && server.conds == if ok then RemoveCondition(before, kind) else before
  {
    if kind == "" {
      return true;
    }
    for k := 0 to |others|
      invariant Settled(old(server.conds), others, kind, 0) == Settled(old(server.conds), others, kind, k)
      invariant server.conds == Before(old(server.conds), others, k)
    {
      var base, current := server.version, server.conds;
      if Find(current, kind).None? {
        RemoveAbsent(current, kind);
        return true;
      }
      if others[k].Some? {
        var _ := server.Patch(server.version, others[k].value);
      }
      ok := server.Patch(base, RemoveCondition(current, kind));
      if ok {
        return true;
      }
    }
    return false;
  }

  // ---------------------------------------------------------------- all interleavings

  datatype Point = Fresh | Read(version: nat, conds: seq<Cond>) | Succeeded | Failed

  datatype Caller = Caller(op: Op, at: Point)

  /** What became visible, in order: the change of a caller, or a list written by somebody else. */
  datatype Commit = Change(caller: nat) | Other(conds: seq<Cond>)

  /** The version grows with every write and is not reused when the object is created again. */
  datatype State = State(version: nat, here: bool, conds: seq<Cond>, callers: seq<Caller>, log: seq<Commit>)

  datatype Step =
    | Get(i: nat)
    | Send(i: nat)
    | GiveUp(i: nat)            // an error other than a conflict, or no retries left
    | Touch                     // somebody else changes another field
    | Write(conds: seq<Cond>)   // somebody else changes the conditions, or the object is created again
    | Delete

  function At(s: State, i: nat, at: Point): State
    requires i < |s.callers|
  {
    s.(callers := s.callers[i := s.callers[i].(at := at)])
  }

  function Next(s: State, step: Step): State {
    match step
    case Get(i) =>
      if i >= |s.callers| || s.callers[i].at != Fresh then s
      else if s.callers[i].op.Remove? && (!s.here || Find(s.conds, s.callers[i].op.kind).None?) then
        At(s, i, Succeeded).(log := s.log + [Change(i)])
      else if !s.here then At(s, i, Failed)
      else At(s, i, Read(s.version, s.conds))
    case Send(i) =>
      if i >= |s.callers| || !s.callers[i].at.Read? then s
      else if !s.here then At(s, i, Failed)
      else if s.callers[i].at.version != s.version then At(s, i, Fresh)
      else
        At(s, i, Succeeded).(
          version := s.version + 1,
          conds := Apply(s.callers[i].op, s.callers[i].at.conds),
          log := s.log + [Change(i)])
    case GiveUp(i) => if i >= |s.callers| || s.callers[i].at == Succeeded then s else At(s, i, Failed)
    case Touch => s.(version := s.version + 1)
    case Write(conds) => s.(version := s.version + 1, here := true, conds := conds, log := s.log + [Other(conds)])
    case Delete => s.(version := s.version + 1, here := false, conds := [], log := s.log + [Other([])])
  }

  function Run(s: State, steps: seq<Step>): State {
    if steps == [] then s else Next(Run(s, steps[..|steps| - 1]), steps[|steps| - 1])
  }

  predicate Waiting(s: State, i: nat) {
    i < |s.callers| && s.callers[i].at == Fresh
  }

  /** A removal finds nothing to remove. */
  predicate NothingToDo(s: State, i: nat)
    requires i < |s.callers|
  {
    s.callers[i].op.Remove? && (!s.here || Find(s.conds, s.callers[i].op.kind).None?)
  }

  /** A call that nobody disturbs commits its own change at once, or sees at once that it has none to make. */
  lemma UndisturbedCallCommits(s: State, i: nat)
    requires Waiting(s, i)
    ensures NothingToDo(s, i) ==> Next(s, Get(i)) == At(s, i, Succeeded).(log := s.log + [Change(i)])
    ensures s.here && !NothingToDo(s, i) ==>
              Next(Next(s, Get(i)), Send(i))
              == At(s, i, Succeeded).(version := s.version + 1, conds := Apply(s.callers[i].op, s.conds), log := s.log + [Change(i)])
    ensures !s.here && s.callers[i].op.Set? ==> Next(s, Get(i)) == At(s, i, Failed)
  {
    if s.here && !NothingToDo(s, i) {
      var read := At(s, i, Read(s.version, s.conds));
      assert Next(s, Get(i)) == read;
      assert read.callers[i := read.callers[i].(at := Succeeded)] == s.callers[i := s.callers[i].(at := Succeeded)];
    }
  }

  /** A disturbed call reads again without a change, a call on a deleted object fails, and a finished one stays. */
  lemma DisturbedCallReadsAgain(s: State, i: nat)
    requires i < |s.callers| && s.callers[i].at.Read?
    ensures s.here && s.callers[i].at.version != s.version ==> Next(s, Send(i)) == At(s, i, Fresh)
    ensures !s.here ==> Next(s, Send(i)) == At(s, i, Failed)
    ensures Next(s, GiveUp(i)) == At(s, i, Failed)
  {
  }

  /** The list after the commits of the log, each applied atomically on top of the ones before. */
  function Replay(conds: seq<Cond>, callers: seq<Caller>, log: seq<Commit>): seq<Cond> {
    if log == [] then conds
    else
      var before := Replay(conds, callers, log[..|log| - 1]);
      match log[|log| - 1]
      case Other(written) => written
      case Change(i) => if i < |callers| then Apply(callers[i].op, before) else before
  }

  /** A copy read at the current version is the current list. */
  predicate UpToDate(s: State, i: nat)
    requires i < |s.callers|
  {
    s.callers[i].at.Read? ==>
      s.callers[i].at.version <= s.version
      && (s.callers[i].at.version == s.version ==> s.here && s.callers[i].at.conds == s.conds)
  }

  predicate SameOps(a: seq<Caller>, b: seq<Caller>) {
    |a| == |b| && forall i :: 0 <= i < |a| ==> a[i].op == b[i].op
  }

  /** How often a caller occurs in the log. */
  function Commits(log: seq<Commit>, i: nat): nat {
    if log == [] then 0 else Commits(log[..|log| - 1], i) + if log[|log| - 1] == Change(i) then 1 else 0
  }

  ghost predicate Atomic(s: State, conds: seq<Cond>) {
    && s.conds == Replay(conds, s.callers, s.log)
    && (!s.here ==> s.conds == [])
    && (forall i :: 0 <= i < |s.callers| ==> UpToDate(s, i))
    && (forall i :: 0 <= i < |s.callers| ==> Commits(s.log, i) == if s.callers[i].at == Succeeded then 1 else 0)
  }

  lemma {:induction false} ReplayIgnoresPoints(conds: seq<Cond>, a: seq<Caller>, b: seq<Caller>, log: seq<Commit>)
    requires SameOps(a, b)
    ensures Replay(conds, a, log) == Replay(conds, b, log)
  {
    if log != [] {
      ReplayIgnoresPoints(conds, a, b, log[..|log| - 1]);
    }
  }

  lemma StepKeepsCopies(s: State, step: Step, i: nat)
    requires i < |s.callers| && UpToDate(s, i)
    ensures UpToDate(Next(s, step), i)
  {
  }

  lemma CommitsMore(log: seq<Commit>, commit: Commit, i: nat)
    ensures Commits(log + [commit], i) == Commits(log, i) + if commit == Change(i) then 1 else 0
  {
    assert (log + [commit])[..|log|] == log;
  }

  /** What a step may do to a caller and the log. */
  predicate CommitStep(s: State, s': State, i: nat)
    requires i < |s.callers| && |s'.callers| == |s.callers|
  {
    || (s'.log == s.log && (s'.callers[i].at == Succeeded <==> s.callers[i].at == Succeeded))
    || (s'.log == s.log + [Change(i)] && s.callers[i].at != Succeeded && s'.callers[i].at == Succeeded)
    || (|s'.log| == |s.log| + 1 && s'.log == s.log + [s'.log[|s.log|]] && s'.log[|s.log|] != Change(i)
        && (s'.callers[i].at == Succeeded <==> s.callers[i].at == Succeeded))
  }

  lemma StepCommits(s: State, step: Step, i: nat)
    requires i < |s.callers|
    ensures |Next(s, step).callers| == |s.callers| && CommitStep(s, Next(s, step), i)
  {
  }

  lemma StepKeepsCommits(s: State, step: Step, i: nat)
    requires i < |s.callers| && Commits(s.log, i) == if s.callers[i].at == Succeeded then 1 else 0
    ensures var s' := Next(s, step); Commits(s'.log, i) == if s'.callers[i].at == Succeeded then 1 else 0
  {
    var s' := Next(s, step);
    StepCommits(s, step, i);
    if s'.log != s.log {
      CommitsMore(s.log, s'.log[|s.log|], i);
    }
  }

  lemma ReplayMore(conds: seq<Cond>, a: seq<Caller>, b: seq<Caller>, log: seq<Commit>, commit: Commit)
    requires SameOps(a, b) && (commit.Change? ==> commit.caller < |a|)
    ensures Replay(conds, b, log + [commit])
            == if commit.Other? then commit.conds else Apply(a[commit.caller].op, Replay(conds, a, log))
  {
    assert (log + [commit])[..|log|] == log;
    ReplayIgnoresPoints(conds, a, b, log);
  }

  lemma GetKeepsReplay(s: State, i: nat, conds: seq<Cond>)
    requires s.conds == Replay(conds, s.callers, s.log) && (!s.here ==> s.conds == [])
    ensures var s' := Next(s, Get(i)); s'.conds == Replay(conds, s'.callers, s'.log) && s'.here == s.here && s'.conds == s.conds
  {
    var s' := Next(s, Get(i));
    if s'.log == s.log {
      ReplayIgnoresPoints(conds, s.callers, s'.callers, s.log);
    } else {
      ReplayMore(conds, s.callers, s'.callers, s.log, Change(i));
      RemoveAbsent(s.conds, s.callers[i].op.kind);
    }
  }

  lemma StepKeepsReplay(s: State, step: Step, conds: seq<Cond>)
    requires s.conds == Replay(conds, s.callers, s.log) && (!s.here ==> s.conds == [])
    requires forall i :: 0 <= i < |s.callers| ==> UpToDate(s, i)
    ensures var s' := Next(s, step); s'.conds == Replay(conds, s'.callers, s'.log) && (!s'.here ==> s'.conds == [])
  {
    var s' := Next(s, step);
    if step.Get? {
      GetKeepsReplay(s, step.i, conds);
    } else if s'.log == s.log {
      ReplayIgnoresPoints(conds, s.callers, s'.callers, s.log);
    } else {
      assert step.Send? ==> UpToDate(s, step.i);
      ReplayMore(conds, s.callers, s'.callers, s.log, s'.log[|s.log|]);
    }
  }

  lemma StepKeepsAtomic(s: State, step: Step, conds: seq<Cond>)
    requires Atomic(s, conds)
    ensures Atomic(Next(s, step), conds)
  {
    var s' := Next(s, step);
    StepKeepsReplay(s, step, conds);
    assert |s'.callers| == |s.callers|;
    forall i | 0 <= i < |s.callers|
      ensures UpToDate(s', i) && Commits(s'.log, i) == if s'.callers[i].at == Succeeded then 1 else 0
    {
      StepKeepsCopies(s, step, i);
      StepKeepsCommits(s, step, i);
    }
  }

  /**
   In every interleaving the list is the replay of the commits, every successful call is in the log exactly
   once, and no other call is.
   */
  lemma {:induction false} EveryCallIsAtomic(s: State, steps: seq<Step>)
    requires s.log == [] && (!s.here ==> s.conds == []) && forall i :: 0 <= i < |s.callers| ==> s.callers[i].at == Fresh
    ensures Atomic(Run(s, steps), s.conds)
  {
    if steps != [] {
      EveryCallIsAtomic(s, steps[..|steps| - 1]);
      StepKeepsAtomic(Run(s, steps[..|steps| - 1]), steps[|steps| - 1], s.conds);
    }
  }

  /** The last commit that decides a kind: the last change of that kind or the last foreign list. */
  function Decided(conds: seq<Cond>, callers: seq<Caller>, log: seq<Commit>, kind: string): Option<Cond> {
    if log == [] then Find(conds, kind)
    else
      match log[|log| - 1]
      case Other(written) => Find(written, kind)
      case Change(i) =>
        if i < |callers| && KindOf(callers[i].op) == kind then Outcome(callers[i].op)
        else Decided(conds, callers, log[..|log| - 1], kind)
  }

  lemma {:induction false} ReplayDecides(conds: seq<Cond>, callers: seq<Caller>, log: seq<Commit>, kind: string)
    ensures Find(Replay(conds, callers, log), kind) == Decided(conds, callers, log, kind)
  {
    if log != [] {
      ReplayDecides(conds, callers, log[..|log| - 1], kind);
      var last := log[|log| - 1];
      if last.Change? && last.caller < |callers| {
        ApplyIsLocal(callers[last.caller].op, Replay(conds, callers, log[..|log| - 1]), kind);
      }
    }
  }

  /** No update is lost: each kind is what the last committed change of that kind made it. */
  lemma NoLostUpdate(s: State, steps: seq<Step>, kind: string)
    requires s.log == [] && (!s.here ==> s.conds == []) && forall i :: 0 <= i < |s.callers| ==> s.callers[i].at == Fresh
    ensures var end := Run(s, steps); Find(end.conds, kind) == Decided(s.conds, end.callers, end.log, kind)
  {
    EveryCallIsAtomic(s, steps);
    var end := Run(s, steps);
    ReplayDecides(s.conds, end.callers, end.log, kind);
  }

  /** Without the version check, two calls that read the same list lose the change of the first one. */
  lemma UncheckedPatchLosesUpdate(conds: seq<Cond>, first: Op, second: Op)
    requires KindOf(first) != KindOf(second) && Find(conds, KindOf(first)) != Outcome(first)
    ensures var end := Apply(second, conds);      // the second list replaces the first one whole
            && Find(end, KindOf(first)) != Outcome(first)
            && Find(Apply(second, Apply(first, conds)), KindOf(first)) == Outcome(first)
  {
    ApplyIsLocal(second, conds, KindOf(first));
    ApplyIsLocal(second, Apply(first, conds), KindOf(first));
    ApplyIsLocal(first, conds, KindOf(first));
  }
}
