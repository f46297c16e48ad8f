/**
 The power cycle of a server before a failed resource is retried: power off, confirm off, power on,
 confirm on, with an escalation to a forced power-off and a give-up. Elapsed-time tests are inputs, and
 every status patch may be the one that fails.
 */
module PowerCycle {

  datatype Reason = Unset | ResetIssued | ForceIssued | GaveUp

  /** One tracked condition; a missing one reads as False without reason. */
  datatype Stage = Stage(isTrue: bool, reason: Reason)

  datatype Conds = Conds(reset: Stage, powerOff: Stage, forceOff: Stage, powerOn: Stage)

  const CLEAR := Stage(false, Unset)

  datatype Power = Off | On | Changing | Unknown

  /** What one call finds: `persists` is how many of its status patches succeed. */
  datatype Env = Env(power: Power, commandOk: bool, giveUpOk: bool, forceDue: bool, giveUpDue: bool, persists: nat)

  datatype Event = SawOff | DidPowerOff | ForceRecorded | DidPowerOn | SawOn | NewCycle

  datatype Outcome = Outcome(c: Conds, ready: bool, events: seq<Event>)

  /** Giving up clears the stages one patch after the other. */
  function GiveUp(c: Conds, env: Env): Outcome {
    var gone := Stage(false, GaveUp);
    if !env.giveUpOk || env.persists == 0 then Outcome(c, false, [])
    else if env.persists == 1 then Outcome(c.(reset := gone), false, [])
    else if env.persists == 2 then Outcome(c.(reset := gone, powerOff := gone), false, [NewCycle])
    else if env.persists == 3 then Outcome(c.(reset := gone, powerOff := gone, forceOff := gone), false, [NewCycle])
    else Outcome(Conds(gone, gone, gone, gone), false, [NewCycle])
  }

  function OffStage(c: Conds, env: Env): Outcome {
    if env.power == Unknown then Outcome(c, false, [])
    else if env.power == Off then
      Outcome(if env.persists > 0 then c.(powerOff := Stage(true, ResetIssued)) else c, false, [SawOff])
    else if c.powerOff.reason != ResetIssued then
      if !env.commandOk then Outcome(c, false, [])
      else Outcome(if env.persists > 0 then c.(powerOff := Stage(false, ResetIssued)) else c, false, [DidPowerOff])
    else if env.forceDue && !c.forceOff.isTrue then
      if !env.commandOk || env.persists == 0 then Outcome(c, false, [])
      else Outcome(c.(forceOff := Stage(true, ForceIssued)), false, [ForceRecorded])
    else if env.giveUpDue then GiveUp(c, env)
    else Outcome(c, false, [])
  }

  function OnStage(c: Conds, env: Env): Outcome {
    if c.powerOn.reason != ResetIssued then
      if !env.commandOk then Outcome(c, false, [])
      else Outcome(if env.persists > 0 then c.(powerOn := Stage(false, ResetIssued)) else c, false, [DidPowerOn])
    else if env.power == Unknown then Outcome(c, false, [])
    else if env.power != On then
      if env.giveUpDue then GiveUp(c, env) else Outcome(c, false, [])
    else if env.persists == 0 then Outcome(c, false, [SawOn])
    else if env.persists == 1 then Outcome(c.(powerOn := Stage(true, ResetIssued)), false, [SawOn])
    else Outcome(c.(powerOn := Stage(true, ResetIssued), reset := Stage(true, ResetIssued)), false, [SawOn])
  }

  function Call(c: Conds, env: Env): Outcome {
    if c.reset.isTrue then Outcome(c, true, [])
    else if !c.powerOff.isTrue then OffStage(c, env)
    else OnStage(c, env)
  }

  // ---------------------------------------------------------------- the conditions in place

  /**
   The conditions of the owning object; each successful patch uses up one of `persists`. What is read
   from and sent to the server is recorded in `events`.
   */
  class Tracked {
    var c: Conds
    var persists: nat
    var events: seq<Event>

    constructor (c: Conds, persists: nat)
      ensures this.c == c && this.persists == persists && events == []
    {
      this.c, this.persists, this.events := c, persists, [];
    }

    method Persist(updated: Conds) returns (ok: bool)
      modifies this`c, this`persists
      ensures ok == (old(persists) > 0)
      ensures c == if ok then updated else old(c)
      ensures persists == if ok then old(persists) - 1 else 0
    {
      ok := persists > 0;
      if ok {
        c, persists := updated, persists - 1;
      }
    }

    method Happened(e: Event)
      modifies this`events
      ensures events == old(events) + [e]
    {
      events := events + [e];
    }

    /** True when the stage was stuck: the call fails whether or not giving up went through. */
    method GiveUpIfStuck(stage: Stage, env: Env) returns (failed: bool)
      requires env.persists == persists
      modifies this
      ensures failed == (env.giveUpDue && stage.reason == ResetIssued)
      ensures c == if failed then GiveUp(old(c), env).c else old(c)
      ensures events == old(events) + if failed then GiveUp(old(c), env).events else []
    {
      if stage.reason != ResetIssued || !env.giveUpDue {
        return false;
      }
      if !env.giveUpOk {
        return true;
      }
      var gone := Stage(false, GaveUp);
      var ok := Persist(c.(reset := gone));
      if ok {
        ok := Persist(c.(powerOff := gone));
        if ok {
          Happened(NewCycle);
        }
      }
      if ok {
        ok := Persist(c.(forceOff := gone));
      }
      if ok {
        ok := Persist(c.(powerOn := gone));
      }
      return true;
    }

    method HandleServerPowerOffStage(env: Env)
      requires env.persists == persists
      modifies this
      ensures c == OffStage(old(c), env).c && events == old(events) + OffStage(old(c), env).events
    {
      if env.power == Unknown {
        return;
      }
      if c.powerOff.reason != ResetIssued {
        if env.power == Off {
          Happened(SawOff);
          var _ := Persist(c.(powerOff := Stage(true, ResetIssued)));
          return;
        }
        if !env.commandOk {
          return;
        }
        Happened(DidPowerOff);
        var _ := Persist(c.(powerOff := Stage(false, ResetIssued)));
        return;
      }
      if env.power != Off {
        if env.forceDue && !c.forceOff.isTrue {
          if !env.commandOk {
            return;
          }
          var ok := Persist(c.(forceOff := Stage(true, ForceIssued)));
          if ok {
            Happened(ForceRecorded);
          }
          return;
        }
        var _ := GiveUpIfStuck(c.powerOff, env);
        return;
      }
      Happened(SawOff);
      var _ := Persist(c.(powerOff := Stage(true, ResetIssued)));
    }

    method HandleServerPowerOnStage(env: Env)
      requires env.persists == persists
      modifies this
      ensures c == OnStage(old(c), env).c && events == old(events) + OnStage(old(c), env).events
    {
      if c.powerOn.reason != ResetIssued {
        if env.commandOk {
          Happened(DidPowerOn);
          var _ := Persist(c.(powerOn := Stage(false, ResetIssued)));
        }
        return;
      }
      if env.power == Unknown {
        return;
      }
      if env.power != On {
        var _ := GiveUpIfStuck(c.powerOn, env);
        return;
      }
      Happened(SawOn);
      var ok := Persist(c.(powerOn := Stage(true, ResetIssued)));
      if ok {
        var _ := Persist(c.(reset := Stage(true, ResetIssued)));
      }
    }

    method HandleServerPowerCycle(env: Env) returns (ready: bool)
      requires env.persists == persists
      modifies this
      ensures var out := Call(old(c), env); c == out.c && ready == out.ready && events == old(events) + out.events
    {
      if c.reset.isTrue {
        return true;
      }
      if !c.powerOff.isTrue {
        HandleServerPowerOffStage(env);
      } else {
        HandleServerPowerOnStage(env);
      }
      return false;
    }
  }

  // ---------------------------------------------------------------- runs

  /** The conditions, and what happened since the current cycle began. */
  datatype State = State(c: Conds, cycle: seq<Event>)

  function Next(s: State, env: Env): State {
    Extend(s, Call(s.c, env))
  }

  function Extend(s: State, out: Outcome): State {
    State(out.c, if out.events == [NewCycle] then [] else s.cycle + out.events)
  }

  function Run(s: State, envs: seq<Env>): State {
    if envs == [] then s else Next(Run(s, envs[..|envs| - 1]), envs[|envs| - 1])
  }

  ghost predicate ConfirmedOff(cycle: seq<Event>, before: nat) {
    exists a :: 0 <= a < before <= |cycle| && cycle[a] == SawOff
  }

  ghost predicate OffThenOn(cycle: seq<Event>, before: nat) {
    exists b :: 0 <= b < before <= |cycle| && cycle[b] == DidPowerOn && ConfirmedOff(cycle, b)
  }

  /** Read Off, then powered on, then read On. */
  ghost predicate FullCycle(cycle: seq<Event>) {
    exists n :: 0 <= n < |cycle| && cycle[n] == SawOn && OffThenOn(cycle, n)
  }

  /** Every power-on comes after a confirmed Off of the same cycle. */
  ghost predicate PowerOnAfterOff(cycle: seq<Event>) {
    forall b :: 0 <= b < |cycle| && cycle[b] == DidPowerOn ==> ConfirmedOff(cycle, b)
  }

  function Forced(cycle: seq<Event>): nat {
    if cycle == [] then 0 else Forced(cycle[..|cycle| - 1]) + if cycle[|cycle| - 1] == ForceRecorded then 1 else 0
  }

  /** A give-up that is cut off between clearing the power-off and the power-on stage. */
  predicate Torn(c: Conds, env: Env) {
    && !c.reset.isTrue && c.powerOff.isTrue && c.powerOn.reason == ResetIssued
    && env.power in {Off, Changing} && env.giveUpDue && env.giveUpOk && env.persists in {2, 3}
  }

  /** What the conditions say about the cycle. */
  ghost predicate Ordered(s: State) {
    && (s.c.powerOff.isTrue ==> ConfirmedOff(s.cycle, |s.cycle|))
    && (s.c.powerOn.reason == ResetIssued ==> s.c.powerOff.isTrue && OffThenOn(s.cycle, |s.cycle|))
    && (s.c.reset.isTrue ==> FullCycle(s.cycle))
    && PowerOnAfterOff(s.cycle)
    && Forced(s.cycle) <= (if s.c.forceOff.isTrue then 1 else 0)
  }

  lemma Longer(cycle: seq<Event>, e: Event)
    ensures ConfirmedOff(cycle, |cycle|) ==> ConfirmedOff(cycle + [e], |cycle|) && ConfirmedOff(cycle + [e], |cycle| + 1)
    ensures OffThenOn(cycle, |cycle|) ==> OffThenOn(cycle + [e], |cycle|) && OffThenOn(cycle + [e], |cycle| + 1)
    ensures PowerOnAfterOff(cycle) && (e == DidPowerOn ==> ConfirmedOff(cycle, |cycle|)) ==> PowerOnAfterOff(cycle + [e])
    ensures Forced(cycle + [e]) == Forced(cycle) + if e == ForceRecorded then 1 else 0
  {
    var longer := cycle + [e];
    assert longer[..|cycle|] == cycle;
    forall a | 0 <= a < |cycle|
      ensures longer[a] == cycle[a]
    {
    }
    if OffThenOn(cycle, |cycle|) {
      var b :| 0 <= b < |cycle| && cycle[b] == DidPowerOn && ConfirmedOff(cycle, b);
      ConfirmedLonger(cycle, e, b);
      assert longer[b] == DidPowerOn;
    }
    if PowerOnAfterOff(cycle) {
      forall b | 0 <= b < |cycle| && longer[b] == DidPowerOn
        ensures ConfirmedOff(longer, b)
      {
        ConfirmedLonger(cycle, e, b);
      }
    }
    ConfirmedLonger(cycle, e, |cycle|);
  }

  lemma ConfirmedLonger(cycle: seq<Event>, e: Event, b: nat)
    requires b <= |cycle|
    ensures ConfirmedOff(cycle, b) ==> ConfirmedOff(cycle + [e], b)
  {
    if ConfirmedOff(cycle, b) {
      var a :| 0 <= a < b && cycle[a] == SawOff;
      assert (cycle + [e])[a] == SawOff;
    }
  }

  /** Ending with a read Off or a power-on. */
  lemma LastEvent(cycle: seq<Event>)
    ensures ConfirmedOff(cycle + [SawOff], |cycle| + 1)
    ensures ConfirmedOff(cycle, |cycle|) ==> OffThenOn(cycle + [DidPowerOn], |cycle| + 1)
    ensures OffThenOn(cycle, |cycle|) ==> FullCycle(cycle + [SawOn])
  {
    assert (cycle + [SawOff])[|cycle|] == SawOff;
    if ConfirmedOff(cycle, |cycle|) {
      Longer(cycle, DidPowerOn);
      assert (cycle + [DidPowerOn])[|cycle|] == DidPowerOn;
    }
    if OffThenOn(cycle, |cycle|) {
      Longer(cycle, SawOn);
      assert (cycle + [SawOn])[|cycle|] == SawOn;
    }
  }

  /** A read Off, a power-off command or a forced one, with what they may persist. */
  lemma OffEventKeepsOrdered(s: State, c: Conds, e: Event)
    requires Ordered(s) && !s.c.reset.isTrue && !s.c.powerOff.isTrue
    requires e in {SawOff, DidPowerOff, ForceRecorded} && c.reset == s.c.reset && c.powerOn == s.c.powerOn
    requires c.powerOff.isTrue ==> e == SawOff
    requires if e == ForceRecorded then !s.c.forceOff.isTrue && c.forceOff.isTrue else c.forceOff == s.c.forceOff
    ensures Ordered(State(c, s.cycle + [e]))
  {
    Longer(s.cycle, e);
    LastEvent(s.cycle);
  }

  lemma OffStageKeepsOrdered(s: State, env: Env)
    requires Ordered(s) && !s.c.reset.isTrue && !s.c.powerOff.isTrue
    ensures Ordered(Extend(s, OffStage(s.c, env)))
  {
    var out := OffStage(s.c, env);
    if out.events == [] {
      assert s.cycle + [] == s.cycle;
    } else if out.events != [NewCycle] {
      OffEventKeepsOrdered(s, out.c, out.events[0]);
    } else {
      GiveUpKeepsOrdered(s, env);
    }
  }

  lemma GiveUpKeepsOrdered(s: State, env: Env)
    requires Ordered(s) && !s.c.reset.isTrue
    requires s.c.powerOn.reason == ResetIssued ==> env.persists !in {2, 3} || !env.giveUpOk
    ensures Ordered(Extend(s, GiveUp(s.c, env)))
  {
    assert s.cycle + [] == s.cycle;
  }

  lemma PowerOnKeepsOrdered(s: State, c: Conds)
    requires Ordered(s) && s.c.powerOff.isTrue && c.(powerOn := CLEAR) == s.c.(powerOn := CLEAR)
    ensures Ordered(State(c, s.cycle + [DidPowerOn]))
  {
    Longer(s.cycle, DidPowerOn);
    LastEvent(s.cycle);
    FullLonger(s.cycle, DidPowerOn);
  }

  lemma FullLonger(cycle: seq<Event>, e: Event)
    ensures FullCycle(cycle) ==> FullCycle(cycle + [e])
  {
    if FullCycle(cycle) {
      var n :| 0 <= n < |cycle| && cycle[n] == SawOn && OffThenOn(cycle, n);
      var b :| 0 <= b < n && cycle[b] == DidPowerOn && ConfirmedOff(cycle, b);
      ConfirmedLonger(cycle, e, b);
      assert (cycle + [e])[b] == DidPowerOn && (cycle + [e])[n] == SawOn;
    }
  }

  lemma OnReadKeepsOrdered(s: State, c: Conds)
    requires Ordered(s) && s.c.powerOn.reason == ResetIssued && c.powerOff == s.c.powerOff && c.forceOff == s.c.forceOff
    ensures Ordered(State(c, s.cycle + [SawOn]))
  {
    Longer(s.cycle, SawOn);
    LastEvent(s.cycle);
  }

  lemma OnStageKeepsOrdered(s: State, env: Env)
    requires Ordered(s) && !s.c.reset.isTrue && s.c.powerOff.isTrue && !Torn(s.c, env)
    ensures Ordered(Extend(s, OnStage(s.c, env)))
  {
    var out := OnStage(s.c, env);
    if out == GiveUp(s.c, env) && s.c.powerOn.reason == ResetIssued && env.power in {Off, Changing} && env.giveUpDue {
      GiveUpKeepsOrdered(s, env);
    } else if out.events == [] {
      assert s.cycle + [] == s.cycle;
    } else if out.events == [DidPowerOn] {
      PowerOnKeepsOrdered(s, out.c);
    } else {
      OnReadKeepsOrdered(s, out.c);
    }
  }

  /** What a call leaves of the order when no give-up is torn. */
  lemma CallKeepsOrdered(s: State, env: Env)
    requires Ordered(s) && !Torn(s.c, env)
    ensures Ordered(Next(s, env))
  {
    if s.c.reset.isTrue {
      assert s.cycle + [] == s.cycle;
    } else if s.c.powerOff.isTrue {
      OnStageKeepsOrdered(s, env);
    } else {
      OffStageKeepsOrdered(s, env);
    }
  }

  lemma {:induction false} RunIsOrdered(s: State, envs: seq<Env>)
    requires Ordered(s)
    requires forall i :: 0 <= i < |envs| ==> !Torn(Run(s, envs[..i]).c, envs[i])
    ensures Ordered(Run(s, envs))
  {
    if envs != [] {
      var before := envs[..|envs| - 1];
      forall i | 0 <= i < |before|
        ensures !Torn(Run(s, before[..i]).c, before[i])
      {
        assert before[..i] == envs[..i];
      }
      RunIsOrdered(s, before);
      CallKeepsOrdered(Run(s, before), envs[|envs| - 1]);
    }
  }

  /**
   From cleared conditions and without a torn give-up, a call is ready only after the server was read Off,
   then powered on, then read On in the same cycle; no power-on precedes a confirmed Off, and a forced
   power-off is recorded at most once per cycle.
   */
  lemma ReadyAfterFullCycle(s: State, envs: seq<Env>, env: Env)
    requires s.c == Conds(CLEAR, CLEAR, CLEAR, CLEAR) && s.cycle == []
    requires forall i :: 0 <= i < |envs| ==> !Torn(Run(s, envs[..i]).c, envs[i])
    ensures var end := Run(s, envs);
            && (Call(end.c, env).ready ==> FullCycle(end.cycle))
            && PowerOnAfterOff(end.cycle) && Forced(end.cycle) <= 1
  {
    RunIsOrdered(s, envs);
    ReadyMeansReset(Run(s, envs).c, env);
  }

  lemma ReadyMeansReset(c: Conds, env: Env)
    ensures Call(c, env).ready == c.reset.isTrue
  {
  }

  /** A give-up that clears every stage starts a fresh cycle: the next call powers off or finds the server off. */
  lemma GiveUpStartsFresh(s: State, env: Env, next: Env)
    requires !s.c.reset.isTrue && Call(s.c, env).events == [NewCycle] && env.persists >= 4
    ensures var begun := Next(s, env);
            && begun.cycle == [] && !Call(begun.c, next).ready
            && (next.power == Off ==> Call(begun.c, next).events == [SawOff])
            && (next.power in {On, Changing} && next.commandOk ==> Call(begun.c, next).events == [DidPowerOff])
  {
  }

  predicate Works(env: Env, power: Power) {
    env.power == power && env.commandOk && env.persists > 1
  }

  /** A server that follows its commands is cycled by four calls. */
  lemma CalmCycleIsReady(s: State, e1: Env, e2: Env, e3: Env, e4: Env)
    requires s.c == Conds(CLEAR, CLEAR, CLEAR, CLEAR) && s.cycle == []
    requires Works(e1, On) && Works(e2, Off) && Works(e3, Off) && Works(e4, On)
    ensures var end := Next(Next(Next(Next(s, e1), e2), e3), e4);
            Call(end.c, e4).ready && end.cycle == [DidPowerOff, SawOff, DidPowerOn, SawOn]
  {
    assert Next(s, e1).cycle == [DidPowerOff];
    assert Next(Next(s, e1), e2).cycle == [DidPowerOff, SawOff];
    assert Next(Next(Next(s, e1), e2), e3).cycle == [DidPowerOff, SawOff, DidPowerOn];
  }

  /** A torn give-up lets a later call be ready in a cycle in which nothing powered the server on. */
  lemma TornGiveUpSkipsPowerOn(s: State, torn: Env, off: Env, on: Env)
    requires Torn(s.c, torn)
    requires off.power == Off && off.persists > 0 && on.power == On && on.persists > 1
    ensures var end := Next(Next(Next(s, torn), off), on);
            Call(end.c, on).ready && end.cycle == [SawOff, SawOn] && !FullCycle(end.cycle)
  {
    var cleared := Next(s, torn);
    assert cleared.cycle == [] && Next(cleared, off).cycle == [SawOff];
    var end := Next(Next(cleared, off), on);
    assert end.cycle == [SawOff] + [SawOn];
    forall b | 0 <= b < |end.cycle|
      ensures end.cycle[b] != DidPowerOn
    {
    }
  }

  /** A torn give-up is reached from cleared conditions: the server is off, is told to power on, and never does. */
  lemma TornGiveUpIsReached(s: State, off: Env, on: Env, torn: Env)
    requires s.c == Conds(CLEAR, CLEAR, CLEAR, CLEAR) && s.cycle == []
    requires Works(off, Off) && on.commandOk && on.persists > 0
    requires torn.power == Off && torn.giveUpDue && torn.giveUpOk && torn.persists in {2, 3}
    ensures var stuck := Next(Next(s, off), on); Torn(stuck.c, torn) && stuck.cycle == [SawOff, DidPowerOn]
  {
    assert Next(s, off).cycle == [SawOff];
    assert Next(Next(s, off), on).cycle == [SawOff] + [DidPowerOn];
  }

  // ---------------------------------------------------------------- when each thing happens

  /** Still to be confirmed off, and read to be something else. */
  predicate StaysUp(c: Conds, env: Env) {
    !c.reset.isTrue && !c.powerOff.isTrue && env.power in {On, Changing}
  }

  /** Confirmed off, told to power on, and read to be something else than on. */
  predicate StaysDown(c: Conds, env: Env) {
    !c.reset.isTrue && c.powerOff.isTrue && c.powerOn.reason == ResetIssued && env.power in {Off, Changing}
  }

  /** The escalation is due and was not made yet. */
  predicate Escalates(c: Conds, env: Env) {
    StaysUp(c, env) && c.powerOff.reason == ResetIssued && env.forceDue && !c.forceOff.isTrue
  }

  predicate Stuck(c: Conds, env: Env) {
    env.giveUpDue && (StaysDown(c, env) || (StaysUp(c, env) && c.powerOff.reason == ResetIssued && !Escalates(c, env)))
  }

  /** A forced power-off is recorded exactly when it is due on a server that stays up, and goes through. */
  lemma ForcesIff(c: Conds, env: Env)
    ensures Call(c, env).events == [ForceRecorded] <==> Escalates(c, env) && env.commandOk && env.persists > 0
    ensures Escalates(c, env) ==>
              Call(c, env).c == if env.commandOk && env.persists > 0 then c.(forceOff := Stage(true, ForceIssued)) else c
  {
  }

  /** When the power-off half reads, commands, and what it records. */
  lemma PowersOffIff(c: Conds, env: Env)
    ensures Call(c, env).events == [SawOff] <==> !c.reset.isTrue && !c.powerOff.isTrue && env.power == Off
    ensures Call(c, env).events == [SawOff] ==>
              Call(c, env).c == if env.persists > 0 then c.(powerOff := Stage(true, ResetIssued)) else c
    ensures Call(c, env).events == [DidPowerOff] <==> StaysUp(c, env) && c.powerOff.reason != ResetIssued && env.commandOk
    ensures Call(c, env).events == [DidPowerOff] ==>
              Call(c, env).c == if env.persists > 0 then c.(powerOff := Stage(false, ResetIssued)) else c
  {
  }

  /** When the power-on half commands, reads, and what it records. */
  lemma PowersOnIff(c: Conds, env: Env)
    ensures Call(c, env).events == [DidPowerOn] <==>
              !c.reset.isTrue && c.powerOff.isTrue && c.powerOn.reason != ResetIssued && env.commandOk
    ensures Call(c, env).events == [DidPowerOn] ==>
              Call(c, env).c == if env.persists > 0 then c.(powerOn := Stage(false, ResetIssued)) else c
    ensures Call(c, env).events == [SawOn] <==>
              !c.reset.isTrue && c.powerOff.isTrue && c.powerOn.reason == ResetIssued && env.power == On
    ensures Call(c, env).events == [SawOn] ==>
              && Call(c, env).c.powerOn == (if env.persists > 0 then Stage(true, ResetIssued) else c.powerOn)
              && Call(c, env).c.reset == (if env.persists > 1 then Stage(true, ResetIssued) else c.reset)
              && Call(c, env).c.powerOff == c.powerOff && Call(c, env).c.forceOff == c.forceOff
  {
  }

  /** A stuck server is given up, as far as the patches go; the escalation comes first. */
  lemma GivesUpIff(c: Conds, env: Env)
    ensures Call(c, env).events == [NewCycle] <==> Stuck(c, env) && env.giveUpOk && env.persists > 1
    ensures Stuck(c, env) && env.giveUpOk ==>
              var c', gone := Call(c, env).c, Stage(false, GaveUp);
              && c'.reset == (if env.persists > 0 then gone else c.reset)
              && c'.powerOff == (if env.persists > 1 then gone else c.powerOff)
              && c'.forceOff == (if env.persists > 2 then gone else c.forceOff)
              && c'.powerOn == (if env.persists > 3 then gone else c.powerOn)
  {
  }

  /** Otherwise a call changes nothing, and it is ready exactly on a recorded result. */
  lemma OtherwiseWaits(c: Conds, env: Env)
    ensures Call(c, env).ready <==> c.reset.isTrue
    ensures Call(c, env).events == [] && !(Stuck(c, env) && env.giveUpOk) ==> Call(c, env).c == c
  {
  }

  // ---------------------------------------------------------------- servers that do not follow

  /** A server that ignores the graceful power-off and follows the forced one becomes ready. */
  lemma ForcedCycleIsReady(s: State, e1: Env, e2: Env, e3: Env, e4: Env, e5: Env)
    requires s.c == Conds(CLEAR, CLEAR, CLEAR, CLEAR) && s.cycle == []
    requires Works(e1, On) && Works(e2, On) && e2.forceDue && Works(e3, Off) && Works(e4, Off) && Works(e5, On)
    ensures var end := Next(Next(Next(Next(Next(s, e1), e2), e3), e4), e5);
            Call(end.c, e5).ready && end.cycle == [DidPowerOff, ForceRecorded, SawOff, DidPowerOn, SawOn]
  {
    var asked := Next(s, e1);
    assert asked == State(s.c.(powerOff := Stage(false, ResetIssued)), [DidPowerOff]);
    var forced := Next(asked, e2);
    assert forced == State(asked.c.(forceOff := Stage(true, ForceIssued)), [DidPowerOff, ForceRecorded]);
    var off := Next(forced, e3);
    assert off == State(forced.c.(powerOff := Stage(true, ResetIssued)), [DidPowerOff, ForceRecorded, SawOff]);
    var told := Next(off, e4);
    assert told == State(off.c.(powerOn := Stage(false, ResetIssued)), [DidPowerOff, ForceRecorded, SawOff, DidPowerOn]);
  }

  /** One that follows neither is given up once that is due, and the next cycle starts from scratch. */
  lemma StubbornServerIsGivenUp(s: State, e1: Env, e2: Env, e3: Env)
    requires s.c == Conds(CLEAR, CLEAR, CLEAR, CLEAR) && s.cycle == []
    requires Works(e1, On) && Works(e2, On) && e2.forceDue
    requires e3.power == On && e3.giveUpDue && e3.giveUpOk && e3.persists >= 4
    ensures var end, gone := Next(Next(Next(s, e1), e2), e3), Stage(false, GaveUp);
            end.cycle == [] && end.c == Conds(gone, gone, gone, gone)
  {
    var asked := Next(s, e1);
    assert asked == State(s.c.(powerOff := Stage(false, ResetIssued)), [DidPowerOff]);
    var forced := Next(asked, e2);
    assert forced == State(asked.c.(forceOff := Stage(true, ForceIssued)), [DidPowerOff, ForceRecorded]);
  }
}
