/**
 The retry budget of a failed settings or version object: automatic retries are counted per generation
 of the spec, a retry annotation starts over. The stabilising reset before a retry is an input.
 */
module Retries {
  import opened Options

  datatype Status = Status(failed: bool, attempts: nat, observed: nat)

  /** A policy of the spec decides, even when it says zero; otherwise the default of the controller. */
  function MaxAttempts(policy: Option<int>, default: int): int {
    match policy
    case Some(n) => n
    case None => if default > 0 then default else 0
  }

  datatype Kind = NoRetry | Manual | Automatic

  datatype Handled = Handled(st: Status, kind: Kind)

  function HandleFailed(st: Status, generation: nat, max: int, annotated: bool, ready: bool): Handled {
    if annotated then
      if ready then Handled(Status(false, 0, generation), Manual) else Handled(st, NoRetry)
    else
      var counted := if max > 0 && st.observed != generation then st.(attempts := 0, observed := generation) else st;
      if max > 0 && counted.attempts < max then
        if ready then Handled(Status(false, counted.attempts + 1, generation), Automatic) else Handled(counted, NoRetry)
      else if counted.attempts != 0 && (max == 0 || counted.observed != generation) then
        Handled(counted.(attempts := 0, observed := generation), NoRetry)
      else Handled(counted, NoRetry)
  }

  /** The attempts that count for this generation. */
  function Counted(st: Status, generation: nat, max: int): nat {
    if max > 0 && st.observed != generation then 0 else st.attempts
  }

  /** A retry happens exactly when its reset is ready and the annotation asks for it or the budget allows it. */
  lemma RetriesIff(st: Status, generation: nat, max: int, annotated: bool, ready: bool)
    ensures var h := HandleFailed(st, generation, max, annotated, ready);
            && (h.kind == Manual <==> ready && annotated)
            && (h.kind == Automatic <==> ready && !annotated && max > 0 && Counted(st, generation, max) < max)
            && (h.kind == Manual ==> h.st == Status(false, 0, generation))
            && (h.kind == Automatic ==> h.st == Status(false, Counted(st, generation, max) + 1, generation))
            && (h.kind == NoRetry ==> h.st.failed == st.failed)
  {
  }

  /** Without a retry only the count is kept in step with the generation and with the policy. */
  lemma NoRetryKeeps(st: Status, generation: nat, max: int, annotated: bool, ready: bool)
    requires HandleFailed(st, generation, max, annotated, ready).kind == NoRetry
    ensures var st' := HandleFailed(st, generation, max, annotated, ready).st;
            if annotated then st' == st
            else
              && st'.attempts == (if max == 0 || (max > 0 && st.observed != generation) || (max < 0 && st.observed != generation) then 0 else st.attempts)
              && st'.observed == (if (max > 0 && st.observed != generation)
                                     || (st.attempts != 0 && (max == 0 || st.observed != generation)) then generation else st.observed)
  {
  }

  /** The policy of the spec wins, also when it is zero. */
  lemma PolicyDecides(policy: Option<int>, default: int)
    ensures policy.Some? ==> MaxAttempts(policy, default) == policy.value
    ensures policy.None? && default > 0 ==> MaxAttempts(policy, default) == default
    ensures policy.None? && default <= 0 ==> MaxAttempts(policy, default) == 0
  {
  }

  class Failing {
    var failed: bool
    var attempts: nat
    var observed: nat

    constructor ()
      ensures View() == Status(false, 0, 0)
    {
      failed, attempts, observed := false, 0, 0;
    }

    function View(): Status
      reads this
    {
      Status(failed, attempts, observed)
    }

    method HandleFailedState(generation: nat, policy: Option<int>, default: int, annotated: bool, ready: bool)
      returns (kind: Kind)
      modifies this
      ensures Handled(View(), kind) == HandleFailed(old(View()), generation, MaxAttempts(policy, default), annotated, ready)
    {
      if annotated {
        if !ready {
          return NoRetry;
        }
        failed, attempts, observed := false, 0, generation;
        return Manual;
      }
      var max := 0;
      if policy.Some? {
        max := policy.value;
      } else if default > 0 {
        max := default;
      }
      if max > 0 {
        if observed != generation {
          attempts, observed := 0, generation;
        }
        if attempts < max {
          if !ready {
            return NoRetry;
          }
          failed, observed, attempts := false, generation, attempts + 1;
          return Automatic;
        }
      }
      if attempts != 0 && (max == 0 || observed != generation) {
        attempts, observed := 0, generation;
      }
      return NoRetry;
    }
  }

  // ---------------------------------------------------------------- runs

  /** `automatic` counts the automatic retries since the generation changed or an annotation retried. */
  datatype State = State(st: Status, generation: nat, automatic: nat, total: nat)

  datatype Step = Handle(annotated: bool, ready: bool) | Fail | Observe | Bump

  function Next(s: State, step: Step, max: int): State {
    match step
    case Handle(annotated, ready) =>
      if !s.st.failed then s
      else
        var h := HandleFailed(s.st, s.generation, max, annotated, ready);
        if h.kind == NoRetry then s.(st := h.st)
        else if h.kind == Manual then s.(st := h.st, automatic := 0)
        else s.(st := h.st, automatic := s.automatic + 1, total := s.total + 1)
    case Fail => s.(st := s.st.(failed := true))
    case Observe => s.(st := s.st.(observed := s.generation))
    case Bump => s.(generation := s.generation + 1, automatic := 0)
  }

  function Run(s: State, steps: seq<Step>, max: int): State {
    if steps == [] then s else Next(Run(s, steps[..|steps| - 1], max), steps[|steps| - 1], max)
  }

  predicate Budgeted(s: State, max: int) {
    s.automatic > 0 ==> s.st.observed == s.generation && s.automatic <= s.st.attempts <= max
  }

  /** Between two changes of the generation or manual retries there are at most `max` automatic ones. */
  lemma {:induction false} AutomaticRetriesAreBounded(s: State, steps: seq<Step>, max: int)
    requires s.automatic == 0
    ensures Budgeted(Run(s, steps, max), max)
    ensures Run(s, steps, max).automatic <= if max > 0 then max else 0
  {
    if steps != [] {
      AutomaticRetriesAreBounded(s, steps[..|steps| - 1], max);
    }
  }

  function Failures(k: nat): seq<Step> {
    if k == 0 then [] else Failures(k - 1) + [Fail] + [Handle(false, true)]
  }

  /** The budget is used up: of `k` failures of one generation, `max` are retried and the others stay failed. */
  lemma {:induction false} BudgetIsUsedUp(s: State, k: nat, max: int)
    requires max > 0 && s.automatic == 0 && !s.st.failed && (s.st.observed != s.generation || s.st.attempts == 0)
    ensures var end, done := Run(s, Failures(k), max), if k < max then k else max;
            && end.automatic == done && end.total == s.total + done && end.generation == s.generation
            && (end.st.failed <==> k > max)
            && (k > 0 ==> end.st.attempts == done && end.st.observed == s.generation)
  {
    if k > 0 {
      BudgetIsUsedUp(s, k - 1, max);
      RunMore(s, Failures(k - 1), Fail, max);
      RunMore(s, Failures(k - 1) + [Fail], Handle(false, true), max);
    }
  }

  /** A manual retry and a new generation renew the budget. */
  lemma BudgetIsRenewed(s: State, max: int)
    ensures Next(s, Bump, max) == s.(generation := s.generation + 1, automatic := 0)
    ensures s.st.failed ==> Next(s, Handle(true, true), max) == s.(st := Status(false, 0, s.generation), automatic := 0)
  {
  }

  function Cycle(k: nat): seq<Step> {
    if k == 0 then [] else Cycle(k - 1) + [Bump] + [Fail] + [Handle(false, true)]
  }

  lemma RunMore(s: State, steps: seq<Step>, step: Step, max: int)
    ensures Run(s, steps + [step], max) == Next(Run(s, steps, max), step, max)
  {
    assert (steps + [step])[..|steps|] == steps;
  }

  /** A spec write in every attempt, also one of the controller itself, renews the budget: retries never end. */
  lemma {:induction false} SpecWritesRenewTheBudget(s: State, k: nat, max: int)
    requires max > 0 && s.st.observed <= s.generation && s.total == 0
    ensures var end := Run(s, Cycle(k), max); end.total == k && end.st.observed <= end.generation
  {
    if k > 0 {
      SpecWritesRenewTheBudget(s, k - 1, max);
      RunMore(s, Cycle(k - 1), Bump, max);
      RunMore(s, Cycle(k - 1) + [Bump], Fail, max);
      RunMore(s, Cycle(k - 1) + [Bump] + [Fail], Handle(false, true), max);
    }
  }
}
