/**
 The reset an apply cycle owes: a persisted cycle that needs a reset is verified only after its own
 reset was carried out or overtaken by another operation, and the two ways in which a flow is Applied
 without one.
 */
module FlowReset {
  import opened Options
  import opened BmcReset
  import opened SettingsFlow
  import opened FlowOrder
  import opened FlowConvergence

  /**
   A world, whether the last issue needs a reset, and what happened around the post-apply condition since
   that issue.
   */
  datatype History = History(w: World, owes: bool, cycle: seq<Event>)

  /**
   A reconcile of whatever the spec is then, the BMC's controller carrying out a pending reset, another
   party writing the annotation, or a change on the BMC.
   */
  datatype Move = Rec(spec: Spec, env: Env) | CarryOut | Annotate(op: Operation) | Outside(attrs: Attrs)

  function After(h: History, move: Move): History {
    match move
    case Rec(spec, env) =>
      var out := Reconcile(spec, h.w, env);
      if out.events == [Issue(true)] then History(out.w, true, [])
      else if out.events == [Issue(false)] then History(out.w, false, [])
      else if out.events == [Request] then History(out.w, h.owes, h.cycle + [Requested])
      else if out.events == [SawDone] then History(out.w, h.owes, h.cycle + [SeenDone])
      else History(out.w, h.owes, h.cycle)
    case CarryOut =>
      if h.w.op == GracefulRestart then History(FinishReset(h.w), h.owes, h.cycle + [OperatorDone]) else h
    case Annotate(op) =>
      History(h.w.(op := op), h.owes, if h.w.op == GracefulRestart && op != GracefulRestart then h.cycle + [Overwritten] else h.cycle)
    case Outside(attrs) => h.(w := h.w.(attrs := attrs))
  }

  function Play(h: History, moves: seq<Move>): History {
    if moves == [] then h else After(Play(h, moves[..|moves| - 1]), moves[|moves| - 1])
  }

  /** The post-apply condition as the shared reset machine sees it. */
  function Machine(h: History): State {
    State(h.w.st.postReset, h.w.op, h.cycle)
  }

  ghost predicate Explained(h: History) {
    h.w.st.issued.reason == ChangesIssued && h.owes ==> Explains(Machine(h)) && StoodIn !in h.cycle
  }

  /** The bookkeeping a reconcile may leave, given what happened. */
  ghost predicate Effect(w: World, out: Outcome) {
    var st, st' := w.st, out.w.st;
    || (out.events == [] && st'.issued == st.issued && st'.postReset == st.postReset && out.w.op in {w.op, GracefulRestart})
    || (out.events == [] && st'.issued.reason == NotIssued && out.w.op == w.op)
    || (out.events == [Issue(true)] && st'.postReset == ResetCond(false, ResetRequired))
    || out.events == [Issue(false)]
    || (out.events == [Request] && st'.issued == st.issued && !st.postReset.isTrue && st.postReset.reason != ResetIssued
        && st'.postReset == ResetCond(false, ResetIssued) && out.w.op == GracefulRestart)
    || (out.events == [SawDone] && st'.issued == st.issued && st.postReset == ResetCond(false, ResetIssued)
        && st'.postReset == ResetCond(true, ResetIssued) && w.op != GracefulRestart && out.w.op == w.op)
    || (out.events == [Verify] && st.issued.reason == ChangesIssued && st.postReset.isTrue && st'.postReset == st.postReset
        && (st'.issued == st.issued || st'.issued.reason == VerificationPending) && out.w.op == w.op)
  }

  lemma UpdateEffect(spec: Spec, w: World, md: Attrs, env: Env)
    ensures Effect(w, UpdateOutcome(spec, w, md, env))
  {
  }

  /** Each reconcile makes one of seven changes to the bookkeeping of its reset. */
  lemma ReconcileEffect(spec: Spec, w: World, env: Env)
    ensures Effect(w, Reconcile(spec, w, env))
  {
    if w.st.phase == Progressing && Diff(Merged(spec.flow), w.attrs) != map[] && env.granted {
      var call := ResetCall(w.st.initialReset, false, env.recentReset, w.op, env.persisted);
      if call.ready && !call.failed {
        UpdateEffect(spec, w.(st := w.st.(initialReset := call.cond), op := call.op), Diff(Merged(spec.flow), w.attrs), env);
      }
    }
  }

  /** A foreign request or no change at all. */
  lemma StutterKeepsExplains(s: State, op: Operation)
    requires Explains(s) && op in {s.op, GracefulRestart}
    ensures Explains(State(s.cond, op, s.log))
  {
    if !s.cond.isTrue && s.cond.reason == ResetIssued {
      var a :| Waits(s.log, s.op, a);
      assert Waits(s.log, op, a);
    }
  }

  /** The calls of a flow are calls of the shared machine that accept no recent reset. */
  lemma ReconcileKeepsExplained(h: History, spec: Spec, env: Env)
    requires Explained(h)
    ensures Explained(After(h, Rec(spec, env)))
  {
    var out, h' := Reconcile(spec, h.w, env), After(h, Rec(spec, env));
    ReconcileEffect(spec, h.w, env);
    if h.w.st.issued.reason == ChangesIssued && h.owes {
      if out.events == [Request] || out.events == [SawDone] {
        var call := DoCall(true, false, true);
        assert h.w.op != OtherOperation || out.events == [SawDone] ==> Machine(h') == Next(Machine(h), call);
        CallKeepsExplains(Machine(h), call);
        RequestOfOther(spec, h.w, env);
      } else if out.w.op in {h.w.op, GracefulRestart} {
        StutterKeepsExplains(Machine(h), out.w.op);
      }
    }
  }

  /** No reset is asked for while another operation is on the annotation. */
  lemma RequestOfOther(spec: Spec, w: World, env: Env)
    ensures Reconcile(spec, w, env).events == [Request] ==> w.op != OtherOperation
  {
  }

  lemma MoveKeepsExplained(h: History, move: Move)
    requires Explained(h)
    ensures Explained(After(h, move))
  {
    match move
    case Rec(spec, env) => ReconcileKeepsExplained(h, spec, env);
    case CarryOut =>
      if h.w.st.issued.reason == ChangesIssued && h.owes {
        ForeignKeepsExplains(Machine(h), Carry);
      }
    case Annotate(op) =>
      if h.w.st.issued.reason == ChangesIssued && h.owes {
        ForeignKeepsExplains(Machine(h), Foreign(op));
      }
    case Outside(_) =>
  }

  lemma {:induction false} PlayExplained(h: History, moves: seq<Move>)
    requires Explained(h)
    ensures Explained(Play(h, moves))
  {
    if moves != [] {
      PlayExplained(h, moves[..|moves| - 1]);
      MoveKeepsExplained(Play(h, moves[..|moves| - 1]), moves[|moves| - 1]);
    }
  }

  /** Nothing is issued yet. */
  predicate Unissued(h: History) {
    h.w.st.issued.reason != ChangesIssued && h.cycle == []
  }

  /**
   Along every run that starts before an issue, whatever the specs and whatever others write on the
   annotation: a cycle that was issued with a reset required is verified after its own reset was asked for,
   carried out and seen done, if and only if that reset was not overtaken by another operation.
   */
  lemma VerifiedAfterOwnResetIff(h: History, moves: seq<Move>, spec: Spec, env: Env)
    requires Unissued(h)
    ensures var before := Play(h, moves);
            Reconcile(spec, before.w, env).events == [Verify] && before.owes ==>
              (FreshReset(before.cycle) <==> !Overtaken(before.cycle))
  {
    PlayExplained(h, moves);
    var before := Play(h, moves);
    ReconcileEffect(spec, before.w, env);
    if Reconcile(spec, before.w, env).events == [Verify] && before.owes {
      assert before.w.st.issued.reason == ChangesIssued && before.w.st.postReset.isTrue;
      var a, c :| Through(before.cycle, a, c);
      ThroughIsOneOf(before.cycle, a, c);
    }
  }

  /** A requested reset that another operation overwrites: the cycle is verified although nothing was carried out. */
  lemma OverwrittenResetIsVerified(h: History, spec: Spec, a: nat)
    requires h.w.st.phase == Progressing && h.w.st.initialReset.isTrue && !MustIssue(spec, h.w.st)
    requires h.w.st.postReset == ResetCond(false, ResetIssued) && h.w.op == GracefulRestart && !MergedMatches(spec, h.w)
    requires Waits(h.cycle, h.w.op, a) && OperatorDone !in h.cycle
    ensures var seen := After(After(h, Annotate(OtherOperation)), Rec(spec, Calm(true)));
            && Reconcile(spec, seen.w, Calm(true)).events == [Verify]
            && Overtaken(seen.cycle) && !FreshReset(seen.cycle)
  {
    var overwritten := After(h, Annotate(OtherOperation));
    assert overwritten == History(h.w.(op := OtherOperation), h.owes, h.cycle + [Overwritten]);
    OverwrittenIsSeen(overwritten, spec);
    OvertakenLog(h.cycle, h.w.op, a);
  }

  lemma OverwrittenIsSeen(h: History, spec: Spec)
    requires h.w.st.phase == Progressing && h.w.st.initialReset.isTrue && !MustIssue(spec, h.w.st)
    requires h.w.st.postReset == ResetCond(false, ResetIssued) && h.w.op == OtherOperation && !MergedMatches(spec, h.w)
    ensures var seen := After(h, Rec(spec, Calm(true)));
            seen.cycle == h.cycle + [SeenDone] && Reconcile(spec, seen.w, Calm(true)).events == [Verify]
  {
    var w' := h.w.(st := h.w.st.(postReset := ResetCond(true, ResetIssued)));
    assert Reconcile(spec, h.w, Calm(true)) == SettingsFlow.Outcome.Outcome(w', [SawDone]);
  }

  // ---------------------------------------------------------------- Applied without the reset

  /**
   The reset of an issued group is skipped exactly when the write already gave the BMC every merged
   value: the next reconcile then marks the flow Applied, otherwise it asks for the reset.
   */
  lemma ResetSkippedIff(spec: Spec, w: World)
    requires AtStart(spec, w) && !MergedMatches(spec, w)
    ensures var issued := Then(spec, w, true);
            var next := Then(spec, issued, true);
            && issued.st.postReset == ResetCond(false, ResetRequired)
            && (MergedMatches(spec, issued) <==> next.st.phase == Done && next.op == NoOperation)
            && (!MergedMatches(spec, issued) <==> next.st.phase == Progressing && next.op == GracefulRestart)
  {
    IssueStep(spec, w, true, Start(spec, w));
    var issued := Then(spec, w, true);
    if MergedMatches(spec, issued) {
      AppliedIffMergedMatches(spec, issued, Calm(true));
    } else {
      AsksForReset(spec, issued);
    }
  }

  lemma AsksForReset(spec: Spec, w: World)
    requires w.st.phase == Progressing && w.st.initialReset.isTrue && !MustIssue(spec, w.st) && w.op == NoOperation
    requires w.st.postReset == ResetCond(false, ResetRequired) && !MergedMatches(spec, w)
    ensures Then(spec, w, true) == w.(st := w.st.(postReset := ResetCond(false, ResetIssued)), op := GracefulRestart)
  {
  }

  /** A write that is cut off before its status patch leaves no trace of the reset it needs. */
  lemma CutOffWriteForgetsReset(spec: Spec, w: World)
    requires AtStart(spec, w) && !MergedMatches(spec, w)
    ensures var cut := Reconcile(spec, w, Calm(true).(persisted := false)).w;
            && cut.st == w.st && cut.attrs == Then(spec, w, true).attrs && cut.op == NoOperation
            && (MergedMatches(spec, cut) ==> Then(spec, cut, true).st.phase == Done && Then(spec, cut, true).op == NoOperation)
  {
    IssueStep(spec, w, true, Start(spec, w));
    var cut := Reconcile(spec, w, Calm(true).(persisted := false)).w;
    AppliedIffMergedMatches(spec, cut, Calm(true));
  }
}
