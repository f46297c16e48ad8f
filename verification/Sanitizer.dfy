/**
 The disk sanitizer: a dispatch loop starts one wiper per disk in a concurrent group with a limit, and
 waits for all of them. Every sub-step of the loop and of the wipers may interleave with every other.
 */
module Sanitizer {
  import opened Options

  // ---------------------------------------------------------------- the group

  /** The semaphore of the group, its first error, and whether its context is cancelled. */
  datatype GroupState = GroupState(limit: Option<nat>, active: nat, err: Option<nat>, cancelled: bool)

  predicate CanEnter(g: GroupState) {
    g.limit.None? || g.active < g.limit.value
  }

  /** Only a limited group looks at the context while it waits. */
  predicate CanRefuse(g: GroupState, ctxDone: bool) {
    g.limit.Some? && ctxDone
  }

  function Entered(g: GroupState): GroupState {
    if g.limit.Some? then g.(active := g.active + 1) else g
  }

  function Left(g: GroupState): GroupState {
    if g.limit.Some? && g.active > 0 then g.(active := g.active - 1) else g
  }

  /** Only the first error is kept, and it cancels the context. */
  function WithError(g: GroupState, err: nat): GroupState {
    if g.err.None? then g.(err := Some(err), cancelled := true) else g
  }

  class Group {
    var limit: Option<nat>
    var active: nat
    var err: Option<nat>
    var once: bool
    var cancelled: bool

    constructor ()
      ensures Valid() && View() == GroupState(None, 0, None, false)
    {
      limit, active, err, once, cancelled := None, 0, None, false, false;
    }

    predicate Valid()
      reads this
    {
      once == err.Some?
    }

    function View(): GroupState
      reads this
    {
      GroupState(limit, active, err, cancelled)
    }

    /** A negative limit means none; changing it while wipers run is refused. */
    method SetLimit(n: int) returns (ok: bool)
      requires Valid()
      modifies this`limit
      ensures Valid() && ok == (n < 0 || old(active) == 0)
      ensures limit == if n < 0 then None else if ok then Some(n) else old(limit)
    {
      if n < 0 {
        limit := None;
        return true;
      }
      if active != 0 {
        return false;
      }
      limit := Some(n);
      return true;
    }

    /** Waits for room or for the context; `enter` is the choice when both are ready. */
    method GoContext(ctxDone: bool, enter: bool) returns (started: bool)
      requires Valid() && (CanEnter(View()) || CanRefuse(View(), ctxDone))
      modifies this`active
      ensures Valid() && (started ==> old(CanEnter(View()))) && (!started ==> CanRefuse(View(), ctxDone))
      ensures View() == if started then Entered(old(View())) else old(View())
    {
      if limit.None? {
        return true;
      }
      if active < limit.value && (enter || !ctxDone) {
        active := active + 1;
        return true;
      }
      return false;
    }

    method Fail(error: nat)
      requires Valid()
      modifies this`err, this`once, this`cancelled
      ensures Valid() && View() == WithError(old(View()), error)
    {
      if !once {
        once, err, cancelled := true, Some(error), true;
      }
    }

    method Done()
      requires Valid() && (limit.Some? ==> active > 0)
      modifies this`active
      ensures Valid() && View() == Left(old(View()))
    {
      if limit.Some? {
        active := active - 1;
      }
    }

    method Wait() returns (error: Option<nat>)
      requires Valid()
      modifies this`cancelled
      ensures Valid() && error == err && View() == old(View()).(cancelled := true)
    {
      cancelled := true;
      return err;
    }
  }

  // ---------------------------------------------------------------- picking a wiper

  /** The first wiper that supports a disk, by what each answers. */
  function Picked(supports: seq<bool>): (w: Option<nat>)
    ensures w.Some? ==> w.value < |supports| && supports[w.value] && forall j :: 0 <= j < w.value ==> !supports[j]
    ensures w.None? ==> forall j :: 0 <= j < |supports| ==> !supports[j]
  {
    if supports == [] then None
    else if supports[0] then Some(0)
    else
      match Picked(supports[1..])
      case None => None
      case Some(j) => Some(j + 1)
  }

  method Pick(supports: seq<bool>) returns (w: Option<nat>)
    ensures w == Picked(supports)
  {
    for i := 0 to |supports|
      invariant forall j :: 0 <= j < i ==> !supports[j]
    {
      if supports[i] {
        return Some(i);
      }
    }
    return None;
  }

  // ---------------------------------------------------------------- interleavings

  datatype Disk = Disk(supports: seq<bool>, deadlineKnown: bool)

  /** A started wiper: it runs, returns, its error is recorded, it leaves the semaphore, it is done. */
  datatype Task = Running | Returned(ok: bool) | Recorded(ok: bool) | Released(ok: bool) | Finished(ok: bool)

  datatype Loop = Dispatching | Stopped(failed: bool) | Answered(failed: bool, err: Option<nat>)

  /** Task `i` wipes disk `i`; `failures` are the failed tasks in the order in which they were recorded. */
  datatype State = State(
    disks: seq<Disk>,
    g: GroupState,
    parentDone: bool,
    tasks: seq<Task>,
    failures: seq<nat>,
    loop: Loop)

  datatype Step =
    | Dispatch            // the next disk
    | Abandon             // the context ends while waiting for room
    | LoopEnd
    | Return(i: nat, ok: bool)
    | Record(i: nat)
    | Release(i: nat)
    | Finish(i: nat)
    | Wait
    | CancelParent

  predicate Wipeable(disk: Disk) {
    Picked(disk.supports).Some? && disk.deadlineKnown
  }

  predicate Enabled(s: State, step: Step) {
    match step
    case Dispatch =>
      s.loop == Dispatching && |s.tasks| < |s.disks| && (Wipeable(s.disks[|s.tasks|]) ==> CanEnter(s.g))
    case Abandon =>
      s.loop == Dispatching && |s.tasks| < |s.disks| && Wipeable(s.disks[|s.tasks|])
      && CanRefuse(s.g, s.g.cancelled || s.parentDone)
    case LoopEnd => s.loop == Dispatching && |s.tasks| == |s.disks|
    case Return(i, _) => i < |s.tasks| && s.tasks[i].Running?
    case Record(i) => i < |s.tasks| && s.tasks[i].Returned?
    case Release(i) => i < |s.tasks| && s.tasks[i].Recorded?
    case Finish(i) => i < |s.tasks| && s.tasks[i].Released?
    case Wait => s.loop.Stopped? && forall i :: 0 <= i < |s.tasks| ==> s.tasks[i].Finished?
    case CancelParent => true
  }

  function Next(s: State, step: Step): State
    requires Enabled(s, step)
  {
    match step
    case Dispatch =>
      if !Wipeable(s.disks[|s.tasks|]) then s.(loop := Stopped(true))
      else s.(g := Entered(s.g), tasks := s.tasks + [Running])
    case Abandon => s.(loop := Stopped(false))
    case LoopEnd => s.(loop := Stopped(false))
    case Return(i, ok) => s.(tasks := s.tasks[i := Returned(ok)])
    case Record(i) =>
      var ok := s.tasks[i].ok;
      var recorded := s.(tasks := s.tasks[i := Recorded(ok)]);
      if ok then recorded else recorded.(g := WithError(s.g, i), failures := s.failures + [i])
    case Release(i) => s.(g := Left(s.g), tasks := s.tasks[i := Released(s.tasks[i].ok)])
    case Finish(i) => s.(tasks := s.tasks[i := Finished(s.tasks[i].ok)])
    case Wait => s.(g := s.g.(cancelled := true), loop := Answered(s.loop.failed, s.g.err))
    case CancelParent => s.(parentDone := true)
  }

  function After(s: State, step: Step): State {
    if Enabled(s, step) then Next(s, step) else s
  }

  function Run(s: State, steps: seq<Step>): State {
    if steps == [] then s else After(Run(s, steps[..|steps| - 1]), steps[|steps| - 1])
  }

  /** The tasks that hold a place in the semaphore. */
  function Holding(tasks: seq<Task>): nat {
    if tasks == [] then 0
    else Holding(tasks[..|tasks| - 1]) + if Holds(tasks[|tasks| - 1]) then 1 else 0
  }

  predicate Holds(task: Task) {
    !task.Released? && !task.Finished?
  }

  lemma {:induction false} HoldingAfter(tasks: seq<Task>, i: nat, task: Task)
    requires i < |tasks|
    ensures Holding(tasks[i := task])
            == Holding(tasks) - (if Holds(tasks[i]) then 1 else 0) + if Holds(task) then 1 else 0
    ensures Holds(tasks[i]) ==> Holding(tasks) > 0
  {
    var n := |tasks| - 1;
    if i < n {
      HoldingAfter(tasks[..n], i, task);
      assert tasks[i := task][..n] == tasks[..n][i := task];
    } else {
      assert tasks[i := task][..n] == tasks[..n];
    }
  }

  /** A recorded failure is in the list of failures. */
  predicate FailureNoted(s: State, i: nat)
    requires i < |s.tasks|
  {
    (s.tasks[i].Recorded? || s.tasks[i].Released? || s.tasks[i].Finished?) && !s.tasks[i].ok ==> i in s.failures
  }

  /** A noted failure is the failure of a task. */
  predicate FailureReal(s: State, k: nat)
    requires k < |s.failures|
  {
    var i := s.failures[k];
    i < |s.tasks| && (s.tasks[i].Recorded? || s.tasks[i].Released? || s.tasks[i].Finished?) && !s.tasks[i].ok
  }

  ghost predicate Inv(s: State) {
    && |s.tasks| <= |s.disks|
    && (forall k :: 0 <= k < |s.failures| ==> FailureReal(s, k))
    && ((s.loop == Stopped(true) || (s.loop.Answered? && s.loop.failed)) ==> |s.tasks| < |s.disks|)
    && (forall i :: 0 <= i < |s.tasks| ==> Wipeable(s.disks[i]) && FailureNoted(s, i))
    && s.g.err == (if s.failures == [] then None else Some(s.failures[0]))
    && (s.g.cancelled ==> s.failures != [] || s.loop.Answered?)
    && (s.failures != [] || s.loop.Answered? ==> s.g.cancelled)
    && (s.g.limit.Some? ==> s.g.active == Holding(s.tasks) <= s.g.limit.value)
    && (s.loop == Stopped(false) ==> |s.tasks| == |s.disks| || s.failures != [] || (s.parentDone && s.g.limit.Some?))
    && (s.loop.Answered? ==>
          && s.loop.err == s.g.err
          && (forall i :: 0 <= i < |s.tasks| ==> s.tasks[i].Finished?)
          && (!s.loop.failed ==> |s.tasks| == |s.disks| || s.failures != [] || (s.parentDone && s.g.limit.Some?)))
  }

  /** The part of a step that only a task takes. */
  lemma TaskStepKeepsInv(s: State, step: Step)
    requires Inv(s) && Enabled(s, step) && (step.Return? || step.Record? || step.Release? || step.Finish?)
    ensures Inv(Next(s, step))
  {
    var s' := Next(s, step);
    forall k | 0 <= k < |s'.failures|
      ensures FailureReal(s', k)
    {
      assert k < |s.failures| ==> FailureReal(s, k);
    }
    HoldingAfter(s.tasks, step.i, s'.tasks[step.i]);
    forall i | 0 <= i < |s'.tasks|
      ensures FailureNoted(s', i)
    {
      assert FailureNoted(s, i);
      assert step.Record? && i == step.i && !s.tasks[i].ok ==> s'.failures[|s.failures|] == i;
    }
  }

  lemma LoopStepKeepsInv(s: State, step: Step)
    requires Inv(s) && Enabled(s, step) && !(step.Return? || step.Record? || step.Release? || step.Finish?)
    ensures Inv(Next(s, step))
  {
    var s' := Next(s, step);
    if s'.tasks != s.tasks {
      assert s'.tasks[..|s.tasks|] == s.tasks;
    }
    forall k | 0 <= k < |s'.failures|
      ensures FailureReal(s', k)
    {
      assert FailureReal(s, k);
    }
    forall i | 0 <= i < |s'.tasks|
      ensures FailureNoted(s', i)
    {
      assert i < |s.tasks| ==> FailureNoted(s, i);
    }
  }

  lemma {:induction false} RunKeepsInv(s: State, steps: seq<Step>)
    requires Inv(s)
    ensures Inv(Run(s, steps))
  {
    if steps != [] {
      RunKeepsInv(s, steps[..|steps| - 1]);
      var before, step := Run(s, steps[..|steps| - 1]), steps[|steps| - 1];
      if Enabled(before, step) {
        if step.Return? || step.Record? || step.Release? || step.Finish? {
          TaskStepKeepsInv(before, step);
        } else {
          LoopStepKeepsInv(before, step);
        }
      }
    }
  }

  predicate Start(s: State) {
    s.g.active == 0 && s.g.err.None? && !s.g.cancelled && !s.parentDone && s.tasks == [] && s.failures == [] && s.loop == Dispatching
  }

  /** No error came back: neither from the loop nor from the group. */
  predicate Success(s: State) {
    s.loop.Answered? && !s.loop.failed && s.loop.err.None?
  }

  lemma StepKeepsDisks(s: State, step: Step)
    ensures After(s, step).disks == s.disks && After(s, step).g.limit == s.g.limit
    ensures step != CancelParent ==> After(s, step).parentDone == s.parentDone
  {
  }

  lemma {:induction false} RunKeepsDisks(s: State, steps: seq<Step>)
    ensures Run(s, steps).disks == s.disks && Run(s, steps).g.limit == s.g.limit
    ensures (forall i :: 0 <= i < |steps| ==> steps[i] != CancelParent) ==> Run(s, steps).parentDone == s.parentDone
  {
    if steps != [] {
      RunKeepsDisks(s, steps[..|steps| - 1]);
      StepKeepsDisks(Run(s, steps[..|steps| - 1]), steps[|steps| - 1]);
    }
  }

  /** Some wiper supports the disk, and the time it needs is known. */
  predicate HasWiper(disk: Disk) {
    disk.deadlineKnown && exists j :: 0 <= j < |disk.supports| && disk.supports[j]
  }

  lemma WipeableIff(disk: Disk)
    ensures Wipeable(disk) <==> HasWiper(disk)
  {
  }

  /** Every disk has a wiper that ran and returned without error. */
  predicate AllWiped(s: State) {
    && |s.tasks| == |s.disks|
    && forall i :: 0 <= i < |s.disks| ==> HasWiper(s.disks[i]) && s.tasks[i] == Finished(true)
  }

  /**
   Once answered, success means exactly that the wiper picked for every disk ran and returned without
   error, unless the parent context was cancelled in a limited group.
   */
  lemma SuccessMeansWiped(s: State, steps: seq<Step>)
    requires Start(s)
    requires s.g.limit.None? || forall i :: 0 <= i < |steps| ==> steps[i] != CancelParent
    ensures var end := Run(s, steps);
            && end.disks == s.disks
            && (end.loop.Answered? ==> (Success(end) <==> AllWiped(end)))
  {
    RunKeepsInv(s, steps);
    RunKeepsDisks(s, steps);
    var end := Run(s, steps);
    if Success(end) {
      forall i | 0 <= i < |s.disks|
        ensures HasWiper(end.disks[i]) && end.tasks[i] == Finished(true)
      {
        assert FailureNoted(end, i);
        WipeableIff(end.disks[i]);
      }
    } else if end.loop.Answered? && end.failures != [] {
      assert FailureReal(end, 0);
    }
  }

  /** Never more wipers at once than the limit allows; what is returned is the first recorded error. */
  lemma LimitAndFirstError(s: State, steps: seq<Step>)
    requires Start(s)
    ensures var end := Run(s, steps);
            && (s.g.limit.Some? ==> Holding(end.tasks) <= s.g.limit.value)
            && (end.loop.Answered? ==> end.loop.err == if end.failures == [] then None else Some(end.failures[0]))
  {
    RunKeepsInv(s, steps);
    RunKeepsDisks(s, steps);
  }

  /** The group is cancelled exactly by a recorded failure or the answer, and a limited loop that waits may then give up. */
  lemma FailureCancels(s: State, steps: seq<Step>)
    requires Start(s)
    ensures var end := Run(s, steps);
            && (end.g.cancelled <==> end.failures != [] || end.loop.Answered?)
            && (GivesUp(end) ==> Enabled(end, Abandon) && Next(end, Abandon).loop == Stopped(false))
  {
    RunKeepsInv(s, steps);
    var end := Run(s, steps);
    if |end.tasks| < |end.disks| {
      WipeableIff(end.disks[|end.tasks|]);
    }
  }

  /** A failure was recorded while a limited loop has a disk to start. */
  predicate GivesUp(s: State) {
    && s.failures != [] && s.g.limit.Some? && s.loop == Dispatching
    && |s.tasks| < |s.disks| && HasWiper(s.disks[|s.tasks|])
  }

  lemma RunThree(s: State, a: Step, b: Step, c: Step)
    ensures Run(s, [a, b, c]) == After(After(After(s, a), b), c)
  {
    assert [a, b, c][..2] == [a, b] && [a, b][..1] == [a] && [a][..0] == [];
    assert Run(s, [a]) == After(Run(s, []), a);
    assert Run(s, [a, b]) == After(Run(s, [a]), b);
  }

  /** In a limited group a cancelled parent makes the answer a success although no disk was wiped. */
  lemma CancelledParentLooksLikeSuccess(s: State)
    requires Start(s) && s.g.limit.Some? && s.disks != [] && Wipeable(s.disks[0])
    ensures var end := Run(s, [CancelParent, Abandon, Wait]); Success(end) && end.tasks == []
  {
    RunThree(s, CancelParent, Abandon, Wait);
    assert After(s, CancelParent) == s.(parentDone := true);
    assert After(s.(parentDone := true), Abandon) == s.(parentDone := true, loop := Stopped(false));
  }

  /** The next disk is started when it has a wiper, and ends the loop with an error when it has none. */
  lemma DispatchIff(s: State)
    requires Enabled(s, Dispatch)
    ensures var s' := Next(s, Dispatch);
            if HasWiper(s.disks[|s.tasks|]) then s'.tasks == s.tasks + [Running] && s'.loop == Dispatching
            else s'.tasks == s.tasks && s'.loop == Stopped(true)
  {
    WipeableIff(s.disks[|s.tasks|]);
  }

  // ---------------------------------------------------------------- every disk can be wiped

  /** The first `n` disks are wiped, and nothing else was started. */
  predicate WipedFirst(s: State, n: nat) {
    && n <= |s.disks| && |s.tasks| == n && s.loop == Dispatching && s.failures == [] && s.g.err.None? && !s.g.cancelled
    && (s.g.limit.Some? ==> s.g.active == 0 && s.g.limit.value > 0)
    && (forall i :: 0 <= i < n ==> s.tasks[i] == Finished(true))
    && (forall i :: 0 <= i < |s.disks| ==> HasWiper(s.disks[i]))
  }

  /** Starting, running and finishing one more. */
  function WipeOne(s: State, n: nat): State {
    After(After(After(After(After(s, Dispatch), Return(n, true)), Record(n)), Release(n)), Finish(n))
  }

  lemma OneMoreWiped(s: State, n: nat)
    requires WipedFirst(s, n) && n < |s.disks|
    ensures WipedFirst(WipeOne(s, n), n + 1) && WipeOne(s, n).disks == s.disks
  {
    WipeableIff(s.disks[n]);
    var started := After(s, Dispatch);
    assert started == s.(g := Entered(s.g), tasks := s.tasks + [Running]);
    var recorded := After(After(started, Return(n, true)), Record(n));
    assert recorded == s.(g := Entered(s.g), tasks := s.tasks + [Recorded(true)]);
    var end := After(After(recorded, Release(n)), Finish(n));
    assert end == s.(g := Left(Entered(s.g)), tasks := s.tasks + [Finished(true)]);
  }

  function WipeAll(s: State, n: nat): State {
    if n == 0 then s else WipeOne(WipeAll(s, n - 1), n - 1)
  }

  lemma {:induction false} AllWipedFirst(s: State, n: nat)
    requires WipedFirst(s, 0) && n <= |s.disks|
    ensures WipedFirst(WipeAll(s, n), n) && WipeAll(s, n).disks == s.disks
  {
    if n > 0 {
      AllWipedFirst(s, n - 1);
      OneMoreWiped(WipeAll(s, n - 1), n - 1);
    }
  }

  /** Ending the loop and waiting. */
  function Ended(s: State): State {
    After(After(s, LoopEnd), Wait)
  }

  lemma WipedFirstEnds(s: State)
    requires WipedFirst(s, |s.disks|)
    ensures Success(Ended(s)) && AllWiped(Ended(s)) && Ended(s).disks == s.disks
  {
    var stopped := s.(loop := Stopped(false));
    assert After(s, LoopEnd) == stopped;
    assert forall i :: 0 <= i < |stopped.tasks| ==> stopped.tasks[i].Finished?;
  }

  /** With a wiper for every disk and room for one, the disks can be wiped one by one, and that is a success. */
  lemma DisksCanBeWiped(s: State)
    requires Start(s) && (s.g.limit.Some? ==> s.g.limit.value > 0)
    requires forall i :: 0 <= i < |s.disks| ==> HasWiper(s.disks[i])
    ensures var end := Ended(WipeAll(s, |s.disks|)); Success(end) && AllWiped(end) && end.disks == s.disks
  {
    AllWipedFirst(s, |s.disks|);
    WipedFirstEnds(WipeAll(s, |s.disks|));
  }
}
