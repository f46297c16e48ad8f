/**
 The shared "reset the BMC once, then wait for it to settle" state machine, driven by one tracked
 condition and by the operation annotation of the BMC object.
 */
module BmcReset {

  datatype Reason = NoReason | ResetRequired | ResetIssued | NoResetRequired

  /** A tracked condition: its status and its reason. A missing condition reads as False without reason. */
  datatype ResetCond = ResetCond(isTrue: bool, reason: Reason)

  const UNSET := ResetCond(false, NoReason)

  /** The operation annotation on the BMC object. */
  datatype Operation = NoOperation | GracefulRestart | OtherOperation

  /** What one call returns, and the condition and annotation it leaves. */
  datatype Call = Call(ready: bool, failed: bool, cond: ResetCond, op: Operation)

  /** `persisted` is false when the call is cut off before its status patch. */
  function ResetCall(cond: ResetCond, skipRecent: bool, recent: bool, op: Operation, persisted: bool): Call {
    if cond.isTrue then Call(true, false, cond, op)
    else if cond.reason != ResetIssued then
      if !skipRecent && recent then
        Call(true, !persisted, if persisted then ResetCond(true, ResetIssued) else cond, op)
      else if op == OtherOperation then Call(false, true, cond, op)
      else Call(false, !persisted, if persisted then ResetCond(false, ResetIssued) else cond, GracefulRestart)
    else if op == GracefulRestart then Call(false, false, cond, op)
    else Call(false, !persisted, if persisted then ResetCond(true, ResetIssued) else cond, op)
  }

  predicate StandsIn(cond: ResetCond, skipRecent: bool, recent: bool) {
    !cond.isTrue && cond.reason != ResetIssued && !skipRecent && recent
  }

  /** When a call asks for a reset, lets its caller proceed, or fails. */
  lemma CallIff(cond: ResetCond, skipRecent: bool, recent: bool, op: Operation, persisted: bool)
    ensures var call := ResetCall(cond, skipRecent, recent, op, persisted);
            var asks := !cond.isTrue && cond.reason != ResetIssued && !StandsIn(cond, skipRecent, recent);
            && call.op == (if asks && op == NoOperation then GracefulRestart else op)
            && (call.ready <==> cond.isTrue || StandsIn(cond, skipRecent, recent))
            && (call.failed <==> (asks && op == OtherOperation) || (!persisted && !cond.isTrue && (cond.reason == ResetIssued ==> op != GracefulRestart)))
  {
  }

  /** When it records that the reset was asked for, and when that it is over. */
  lemma CallRecordsIff(cond: ResetCond, skipRecent: bool, recent: bool, op: Operation)
    ensures var call := ResetCall(cond, skipRecent, recent, op, true);
            && (call.cond == ResetCond(false, ResetIssued) && call.cond != cond <==>
                  !cond.isTrue && cond.reason != ResetIssued && !StandsIn(cond, skipRecent, recent) && op != OtherOperation)
            && (call.cond == ResetCond(true, ResetIssued) && call.cond != cond <==>
                  StandsIn(cond, skipRecent, recent) || (cond == ResetCond(false, ResetIssued) && op != GracefulRestart))
    ensures ResetCall(cond, skipRecent, recent, op, false).cond == cond
  {
  }

  /** The condition a caller owns and the annotation of its BMC. */
  class Tracked {
    var cond: ResetCond
    var op: Operation

    constructor (cond: ResetCond, op: Operation)
      ensures this.cond == cond && this.op == op
    {
      this.cond := cond;
      this.op := op;
    }

    method IssueBMCReset() returns (ok: bool)
      modifies this`op
      ensures ok == (old(op) != OtherOperation)
      ensures op == if ok then GracefulRestart else old(op)
    {
      if op == GracefulRestart {
        return true;
      }
      if op == OtherOperation {
        return false;
      }
      op := GracefulRestart;
      return true;
    }

    method HandleBMCReset(skipRecent: bool, recent: bool, persisted: bool) returns (ready: bool, failed: bool)
      modifies this
      ensures Call(ready, failed, cond, op) == ResetCall(old(cond), skipRecent, recent, old(op), persisted)
    {
      if cond.isTrue {
        return true, false;
      }
      if cond.reason != ResetIssued {
        if !skipRecent {
          if recent {
            if persisted {
              cond := ResetCond(true, ResetIssued);
            }
            return true, !persisted;
          }
        }
        var ok := IssueBMCReset();
        if !ok {
          return false, true;
        }
        if persisted {
          cond := ResetCond(false, ResetIssued);
        }
        return false, !persisted;
      }
      if op == GracefulRestart {
        return false, false;
      }
      if persisted {
        cond := ResetCond(true, ResetIssued);
      }
      return false, !persisted;
    }
  }

  // ---------------------------------------------------------------- runs

  /** What happens around one tracked condition, in order. */
  datatype Event =
    | Requested             // a call asked for a reset, or found one already asked for
    | OperatorDone          // the BMC's own controller carried a reset out and cleared the annotation
    | Overwritten           // another party replaced or removed a pending reset annotation
    | SeenDone              // a call found no reset pending any more
    | StoodIn               // a call accepted a recent reset instead
    | Ready                 // a call let its caller proceed
    | Other

  /** The condition, the annotation, and what happened since the condition was armed. */
  datatype State = State(cond: ResetCond, op: Operation, log: seq<Event>)

  datatype Step =
    | Arm
    | DoCall(skipRecent: bool, recent: bool, persisted: bool)
    | Carry
    | Foreign(op: Operation)

  /** What a call observably did. */
  function Observed(s: State, skipRecent: bool, recent: bool, persisted: bool): Event {
    if s.cond.isTrue then Ready
    else if !persisted then Other
    else if s.cond.reason != ResetIssued then
      if !skipRecent && recent then StoodIn else if s.op == OtherOperation then Other else Requested
    else if s.op == GracefulRestart then Other
    else SeenDone
  }

  /** Arming, a call, the operator carrying out a pending reset, and another party writing the annotation. */
  function Next(s: State, step: Step): State {
    match step
    case Arm => State(ResetCond(false, ResetRequired), s.op, [])
    case DoCall(skipRecent, recent, persisted) =>
      var call := ResetCall(s.cond, skipRecent, recent, s.op, persisted);
      State(call.cond, call.op, s.log + [Observed(s, skipRecent, recent, persisted)])
    case Carry => if s.op == GracefulRestart then State(s.cond, NoOperation, s.log + [OperatorDone]) else s
    case Foreign(op) =>
      State(s.cond, op, if s.op == GracefulRestart && op != GracefulRestart then s.log + [Overwritten] else s.log)
  }

  function Run(s: State, steps: seq<Step>): State {
    if steps == [] then s else Next(Run(s, steps[..|steps| - 1]), steps[|steps| - 1])
  }

  /** A request, its execution, and a call that saw it done. */
  ghost predicate FreshReset(log: seq<Event>) {
    exists a, b, c :: 0 <= a < b < c < |log| && log[a] == Requested && log[b] == OperatorDone && log[c] == SeenDone
  }

  /** Between the request and the call that saw it done, the annotation was overwritten and nothing carried out. */
  ghost predicate Overtaken(log: seq<Event>) {
    exists a, b, c :: 0 <= a < b < c < |log| && log[a] == Requested && log[b] == Overwritten && log[c] == SeenDone
                      && forall i :: a < i < c ==> log[i] != OperatorDone
  }

  ghost predicate OnlyOneOf(a: bool, b: bool, c: bool) {
    (a || b || c) && !(a && b) && !(a && c) && !(b && c)
  }

  // ---------------------------------------------------------------- what the condition tells about the log

  ghost predicate Settled(log: seq<Event>, a: nat, c: nat) {
    exists b :: a < b < c <= |log| && log[b] in {OperatorDone, Overwritten}
  }

  ghost predicate OnlyRequest(log: seq<Event>, a: nat) {
    && a < |log| && log[a] == Requested
    && forall i :: 0 <= i < |log| ==> log[i] != StoodIn && (log[i] == Requested ==> i == a)
  }

  ghost predicate Waits(log: seq<Event>, op: Operation, a: nat) {
    OnlyRequest(log, a) && SeenDone !in log && (op != GracefulRestart ==> Settled(log, a, |log|))
  }

  ghost predicate Through(log: seq<Event>, a: nat, c: nat) {
    && OnlyRequest(log, a) && a < c < |log| && log[c] == SeenDone && Settled(log, a, c)
    && forall i :: 0 <= i < |log| && log[i] == SeenDone ==> i == c
  }

  ghost predicate Stood(log: seq<Event>) {
    StoodIn in log && Requested !in log && SeenDone !in log
  }

  ghost predicate Explains(s: State) {
    if s.cond.isTrue then Stood(s.log) || exists a, c :: Through(s.log, a, c)
    else if s.cond.reason == ResetIssued then exists a :: Waits(s.log, s.op, a)
    else Requested !in s.log && SeenDone !in s.log && StoodIn !in s.log
  }

  lemma WaitsLonger(s: State, s': State, e: Event, a: nat)
    requires Waits(s.log, s.op, a) && s'.log == s.log + [e]
    requires e !in {Requested, StoodIn, SeenDone}
    requires s'.op != GracefulRestart && s.op == GracefulRestart ==> e in {OperatorDone, Overwritten}
    ensures Waits(s'.log, s'.op, a)
  {
    assert s'.log[|s.log|] == e;
    if s'.op != GracefulRestart {
      if s.op != GracefulRestart {
        var b :| a < b < |s.log| && s.log[b] in {OperatorDone, Overwritten};
        assert s'.log[b] == s.log[b];
      }
      assert Settled(s'.log, a, |s'.log|);
    }
  }

  lemma WaitsSeen(log: seq<Event>, op: Operation, a: nat)
    requires Waits(log, op, a) && op != GracefulRestart
    ensures Through(log + [SeenDone], a, |log|)
  {
    var log' := log + [SeenDone];
    var b :| a < b < |log| && log[b] in {OperatorDone, Overwritten};
    assert log'[b] == log[b] && log'[a] == log[a];
    assert Settled(log', a, |log|);
  }

  lemma ThroughLonger(log: seq<Event>, e: Event, a: nat, c: nat)
    requires Through(log, a, c) && e !in {Requested, StoodIn, SeenDone}
    ensures Through(log + [e], a, c)
  {
    var log' := log + [e];
    var b :| a < b < c && log[b] in {OperatorDone, Overwritten};
    assert log'[b] == log[b] && log'[a] == log[a] && log'[c] == log[c];
    assert Settled(log', a, c);
  }

  lemma CallKeepsExplains(s: State, step: Step)
    requires Explains(s) && step.DoCall?
    ensures Explains(Next(s, step))
  {
    var s' := Next(s, step);
    var e := s'.log[|s.log|];
    if s.cond.isTrue {
      if !Stood(s.log) {
        var a, c :| Through(s.log, a, c);
        ThroughLonger(s.log, e, a, c);
      }
    } else if s.cond.reason == ResetIssued {
      var a :| Waits(s.log, s.op, a);
      if e == SeenDone {
        WaitsSeen(s.log, s.op, a);
      } else {
        WaitsLonger(s, s', e, a);
      }
    } else if e == Requested {
      assert Waits(s'.log, s'.op, |s.log|);
    }
  }

  lemma ForeignKeepsExplains(s: State, step: Step)
    requires Explains(s) && (step.Carry? || step.Foreign?)
    ensures Explains(Next(s, step))
  {
    var s' := Next(s, step);
    if s'.log != s.log {
      var e := s'.log[|s.log|];
      if s.cond.isTrue {
        if !Stood(s.log) {
          var a, c :| Through(s.log, a, c);
          ThroughLonger(s.log, e, a, c);
        }
      } else if s.cond.reason == ResetIssued {
        var a :| Waits(s.log, s.op, a);
        WaitsLonger(s, s', e, a);
      }
    } else if !s.cond.isTrue && s.cond.reason == ResetIssued {
      var a :| Waits(s.log, s.op, a);
      assert Waits(s'.log, s'.op, a);
    }
  }

  lemma {:induction false} RunExplains(s: State, steps: seq<Step>)
    requires Explains(s)
    ensures Explains(Run(s, steps))
  {
    if steps != [] {
      var before, step := Run(s, steps[..|steps| - 1]), steps[|steps| - 1];
      RunExplains(s, steps[..|steps| - 1]);
      if step.DoCall? {
        CallKeepsExplains(before, step);
      } else if !step.Arm? {
        ForeignKeepsExplains(before, step);
      }
    }
  }

  // ---------------------------------------------------------------- why a call is ready

  lemma ThroughIsOneOf(log: seq<Event>, a: nat, c: nat)
    requires Through(log, a, c)
    ensures OnlyOneOf(FreshReset(log), StoodIn in log, Overtaken(log))
  {
    var b :| a < b < c && log[b] in {OperatorDone, Overwritten};
    if i :| a < i < c && log[i] == OperatorDone {
      assert FreshReset(log);
    } else {
      assert log[b] == Overwritten;
      assert Overtaken(log);
    }
  }

  lemma StoodIsOneOf(log: seq<Event>)
    requires Stood(log)
    ensures OnlyOneOf(FreshReset(log), StoodIn in log, Overtaken(log))
  {
  }

  /** Not armed yet, or armed a moment ago. */
  predicate Unasked(s: State) {
    s.log == [] && !s.cond.isTrue && s.cond.reason != ResetIssued
  }

  /**
   Whatever other parties do to the annotation: a call that lets its caller proceed has exactly one reason
   since the last arming. A reset was asked for, carried out and seen done; or a recent one was accepted; or
   the annotation was overwritten between request and call and no reset was carried out.
   */
  lemma ReadyHasOneReason(s: State, steps: seq<Step>, skipRecent: bool, recent: bool, persisted: bool)
    requires Unasked(s)
    ensures var end := Run(s, steps);
            var call := ResetCall(end.cond, skipRecent, recent, end.op, persisted);
            call.ready && !call.failed ==>
              || (!end.cond.isTrue && !skipRecent && recent)
              || OnlyOneOf(FreshReset(end.log), StoodIn in end.log, Overtaken(end.log))
  {
    RunExplains(s, steps);
    var end := Run(s, steps);
    if end.cond.isTrue {
      if Stood(end.log) {
        StoodIsOneOf(end.log);
      } else {
        var a, c :| Through(end.log, a, c);
        ThroughIsOneOf(end.log, a, c);
      }
    }
  }

  lemma {:induction false} NothingStandsIn(s: State, steps: seq<Step>)
    requires forall i :: 0 <= i < |steps| ==> steps[i].DoCall? ==> steps[i].skipRecent
    requires StoodIn !in s.log
    ensures StoodIn !in Run(s, steps).log
  {
    if steps != [] {
      NothingStandsIn(s, steps[..|steps| - 1]);
    }
  }

  /**
   When no call may accept a recent reset, a ready call comes after a fresh one if and only if the
   annotation was not overtaken by another party.
   */
  lemma FreshResetIff(s: State, steps: seq<Step>, recent: bool, persisted: bool)
    requires Unasked(s)
    requires forall i :: 0 <= i < |steps| ==> steps[i].DoCall? ==> steps[i].skipRecent
    ensures var end := Run(s, steps);
            ResetCall(end.cond, true, recent, end.op, persisted).ready ==> (FreshReset(end.log) <==> !Overtaken(end.log))
  {
    ReadyHasOneReason(s, steps, true, recent, persisted);
    NothingStandsIn(s, steps);
  }

  lemma RunTwo(s: State, a: Step, b: Step)
    ensures Run(s, [a, b]) == Next(Next(s, a), b)
  {
    assert [a, b][..1] == [a] && [a][..0] == [];
    assert Run(s, [a]) == Next(Run(s, []), a);
  }

  lemma OvertakenLog(log: seq<Event>, op: Operation, a: nat)
    requires Waits(log, op, a) && OperatorDone !in log
    ensures var log' := log + [Overwritten] + [SeenDone]; Overtaken(log') && !FreshReset(log')
  {
    var log' := log + [Overwritten] + [SeenDone];
    var b, c := |log|, |log| + 1;
    assert log'[a] == log[a] && log'[b] == Overwritten && log'[c] == SeenDone;
    forall i | 0 <= i < |log'|
      ensures log'[i] != OperatorDone
    {
      assert i < |log| ==> log'[i] == log[i] && log[i] in log;
    }
  }

  /** Every overwrite of a requested reset that was not carried out yet makes the next calls ready without it. */
  lemma OverwrittenResetReadsAsDone(s: State, other: Operation, skipRecent: bool, recent: bool)
    requires Explains(s) && !s.cond.isTrue && s.cond.reason == ResetIssued && s.op == GracefulRestart
    requires OperatorDone !in s.log && other != GracefulRestart
    ensures var end := Run(s, [Foreign(other), DoCall(skipRecent, recent, true)]);
            Overtaken(end.log) && !FreshReset(end.log) && ResetCall(end.cond, skipRecent, recent, end.op, true).ready
  {
    RunTwo(s, Foreign(other), DoCall(skipRecent, recent, true));
    var a :| Waits(s.log, s.op, a);
    OvertakenLog(s.log, s.op, a);
    assert Next(s, Foreign(other)) == State(s.cond, other, s.log + [Overwritten]);
  }

  /** Such a state is reached by one call after arming. */
  lemma OverwriteIsReachable(s: State, recent: bool)
    requires s.op == NoOperation
    ensures var asked := Run(s, [Arm, DoCall(true, recent, true)]);
            && Explains(asked) && !asked.cond.isTrue && asked.cond.reason == ResetIssued && asked.op == GracefulRestart
            && OperatorDone !in asked.log
  {
    RunTwo(s, Arm, DoCall(true, recent, true));
    var asked := Run(s, [Arm, DoCall(true, recent, true)]);
    assert asked == State(ResetCond(false, ResetIssued), GracefulRestart, [] + [Requested]);
    assert Waits(asked.log, asked.op, 0);
  }

  /** A reset that is carried out and left alone: asked for, done, seen, and the caller proceeds. */
  lemma CalmResetIsReady(s: State, recent: bool)
    requires s.op == NoOperation
    ensures var asked := Run(s, [Arm, DoCall(true, recent, true)]);
            var end := Run(asked, [Carry, DoCall(true, recent, true)]);
            ResetCall(end.cond, true, recent, end.op, true).ready && end.log == [Requested, OperatorDone, SeenDone]
  {
    RunTwo(s, Arm, DoCall(true, recent, true));
    var asked := Run(s, [Arm, DoCall(true, recent, true)]);
    assert asked == State(ResetCond(false, ResetIssued), GracefulRestart, [Requested]);
    RunTwo(asked, Carry, DoCall(true, recent, true));
    assert Next(asked, Carry) == State(ResetCond(false, ResetIssued), NoOperation, [Requested, OperatorDone]);
  }
}
