/**
 Safety of the browser action protocol over every run.

 A system state joins the tables of `BrowserAction`, one host process of
 `BrowserHost` and the frames between them.  A frame is delivered at most once,
 possibly late, possibly never; T2 and `failAction` may come at any time later.
 */
module BrowserProtocol {
  import opened Options
  import opened BrowserSession
  import opened BrowserAction
  import H = BrowserHost

  /** `answered` are the intents whose frame the host has accepted and run, in that order. */
  datatype System = System(db: Db, host: H.Host, issued: set<Intent>, inFlight: set<Intent>, answered: seq<Intent>)

  const BOOT := System(Db(map[], map[]), H.EMPTY_HOST, {}, {}, [])

  datatype Op =
    | OpSession(sid: nat, session: Session)
    | OpStart(rid: nat, sid: nat, action: ActionName, hasTarget: bool, payloadComplete: bool,
              control: Option<nat>, document: Option<nat>, observation: Option<nat>)
    | OpT1(rid: nat, now: int, uploadReady: bool)
    | OpHost(event: H.Event)
    | OpDeliver(intent: Intent, now: int, originAllowed: bool)
    | OpT2(intent: Intent, observed: bool, freshDocument: nat)
    | OpFail(intent: Intent)
    | OpPhase(rid: nat, phase: DispatchPhase, evidence: bool, expected: Option<nat>)
    | OpSettle(rid: nat, verdict: Verdict, expected: Option<nat>)
    | OpReconcile(rid: nat, readBack: ReadBack, expected: Option<nat>)

  /** Other session handlers may rewrite a session in any way except for its fence counter. */
  function SetSession(db: Db, sid: nat, session: Session): Db {
    var fence := if sid in db.sessions then db.sessions[sid].nextActionFence else 1;
    db.(sessions := db.sessions[sid := session.(nextActionFence := fence)])
  }

  predicate ActionFrame(e: H.Event) {
    e.Receive? && e.request.Action?
  }

  function Deliver(s: System, intent: Intent, now: int, originAllowed: bool): System {
    if intent !in s.inFlight || !intent.frame.Action? then s
    else
      var (host, reply) := H.Handle(s.host, intent.frame, now, originAllowed);
      s.(host := host, inFlight := s.inFlight - {intent},
         answered := if reply == H.Accepted then s.answered + [intent] else s.answered)
  }

  function Step(s: System, op: Op): System {
    match op
    case OpSession(sid, session) => s.(db := SetSession(s.db, sid, session))
    case OpStart(rid, sid, action, target, payload, control, document, observation) =>
      s.(db := Start(s.db, rid, sid, action, target, payload, control, document, observation).0)
    case OpT1(rid, now, upload) =>
      var (db, r) := PrepareAction(s.db, rid, now, upload);
      if r.Dispatched? then s.(db := db, issued := s.issued + {r.intent}, inFlight := s.inFlight + {r.intent})
      else s.(db := db)
    case OpHost(event) => if ActionFrame(event) then s else s.(host := H.Step(s.host, event))
    case OpDeliver(intent, now, allowed) => Deliver(s, intent, now, allowed)
    case OpT2(intent, observed, fresh_) =>
      if intent in s.answered then s.(db := CommitAction(s.db, intent, observed, fresh_).0) else s
    case OpFail(intent) => if intent in s.issued then s.(db := FailAction(s.db, intent)) else s
    case OpPhase(rid, phase, evidence, expected) => s.(db := RecordPhase(s.db, rid, phase, evidence, expected).0)
    case OpSettle(rid, verdict, expected) => s.(db := Settle(s.db, rid, verdict, expected).0)
    case OpReconcile(rid, readBack, expected) => s.(db := Reconcile(s.db, rid, readBack, expected).0)
  }

  /** The tables change by the transaction each step stands for, T2 and `failAction` only once their cause is there. */
  lemma StepRunsTransaction(s: System, op: Op)
    ensures var db := Step(s, op).db;
            && (op.OpStart? ==> db == Start(s.db, op.rid, op.sid, op.action, op.hasTarget, op.payloadComplete,
                                            op.control, op.document, op.observation).0)
            && (op.OpT1? ==> db == PrepareAction(s.db, op.rid, op.now, op.uploadReady).0)
            && (op.OpT2? && op.intent in s.answered
                ==> db == CommitAction(s.db, op.intent, op.observed, op.freshDocument).0)
            && (op.OpFail? && op.intent in s.issued ==> db == FailAction(s.db, op.intent))
            && (op.OpPhase? ==> db == RecordPhase(s.db, op.rid, op.phase, op.evidence, op.expected).0)
            && (op.OpSettle? ==> db == Settle(s.db, op.rid, op.verdict, op.expected).0)
            && (op.OpReconcile? ==> db == Reconcile(s.db, op.rid, op.readBack, op.expected).0)
            && (op.OpHost? || op.OpDeliver? ==> db == s.db)
  {
  }

  /** T1 sends one frame; delivered while under way, it reaches the host once and is answered if the host accepts it. */
  lemma FramesTravelOnce(s: System, rid: nat, now: int, uploadReady: bool, intent: Intent, originAllowed: bool)
    ensures var r := PrepareAction(s.db, rid, now, uploadReady).1;
            r.Dispatched? ==> var t := Step(s, OpT1(rid, now, uploadReady));
                              && t.inFlight == s.inFlight + {r.intent} && t.issued == s.issued + {r.intent}
                              && t.host == s.host && t.answered == s.answered
    ensures intent in s.inFlight && intent.frame.Action?
            ==> var t := Step(s, OpDeliver(intent, now, originAllowed));
                var (host, reply) := H.Handle(s.host, intent.frame, now, originAllowed);
                && t.host == host && t.inFlight == s.inFlight - {intent} && t.issued == s.issued
                && t.answered == if reply == H.Accepted then s.answered + [intent] else s.answered
  {
  }

  function Run(s: System, ops: seq<Op>): System
    decreases |ops|
  {
    if ops == [] then s else Run(Step(s, ops[0]), ops[1..])
  }

  /** The host has run the action of this run. */
  ghost predicate Ran(s: System, rid: nat) {
    exists i :: 0 <= i < |s.host.executed| && s.host.executed[i].actionId == rid
  }

  // ---------------------------------------------------------------------------
  // The event log of an attempt
  // ---------------------------------------------------------------------------

  function Last(log: seq<LogEvent>): DispatchPhase
    requires log != []
  {
    log[|log| - 1].phase
  }

  /** Numbered 1..n without a gap, phases strictly increasing. */
  ghost predicate Canonical(log: seq<LogEvent>) {
    && log != []
    && (forall i :: 0 <= i < |log| ==> log[i].sequence == i + 1)
    && (forall i, j :: 0 <= i < j < |log| ==> Rank(log[i].phase) < Rank(log[j].phase))
  }

  ghost predicate LogOk(log: seq<LogEvent>) {
    Canonical(log) && Rank(Last(log)) >= Rank(INPUT_SEQUENCE_STARTED)
  }

  ghost predicate AttemptOk(run: ActionRun, a: Attempt) {
    && LogOk(a.log)
    && a.number == 1
    && (Mutating(run.action) ==> Rank(Last(a.log)) >= Rank(MUTATION_TRIGGER_POSSIBLY_ISSUED))
    && (run.phase == DispatchAuthorized ==> Last(a.log) == INPUT_SEQUENCE_STARTED)
    && (run.phase == PossibleEffect ==> Last(a.log) == MUTATION_TRIGGER_POSSIBLY_ISSUED)
    && (a.t2Committed ==> Rank(Last(a.log)) >= Rank(METHOD_RETURNED))
  }

  ghost predicate RunOk(run: ActionRun) {
    && |run.attempts| <= 1
    && run.nextAttempt == |run.attempts| + 1
    && run.phase != TargetResolvedPhase && run.phase != PreconditionVerified
    && (run.attempts == [] ==> run.phase !in {DispatchAuthorized, PossibleEffect, OutcomeObserved, Reconciling})
    && (run.attempts != [] ==> run.phase != IntentRecorded && AttemptOk(run, run.attempts[0]))
  }

  ghost predicate T2Done(db: Db, rid: nat) {
    rid in db.runs && db.runs[rid].attempts != [] && db.runs[rid].attempts[0].t2Committed
  }

  ghost predicate IntentOk(db: Db, intent: Intent) {
    && intent.frame.Action? && intent.frame.actionId == intent.runId
    && intent.attempt == 1 && intent.runId in db.runs && db.runs[intent.runId].attempts != []
  }

  ghost predicate RowsOk(db: Db) {
    forall r :: r in db.runs ==> RunOk(db.runs[r])
  }

  ghost predicate IntentsOk(db: Db, issued: set<Intent>) {
    forall n :: n in issued ==> IntentOk(db, n)
  }

  ghost predicate OnePerRun(issued: set<Intent>) {
    forall n, m :: n in issued && m in issued && n.runId == m.runId ==> n == m
  }

  /** The answered intents are exactly the effects at the host, and none of their frames is still under way. */
  ghost predicate Evidenced(s: System) {
    && |s.answered| == |s.host.executed|
    && (forall i :: 0 <= i < |s.answered| ==>
          s.answered[i] in s.issued && s.answered[i] !in s.inFlight
          && s.answered[i].runId == s.host.executed[i].actionId)
    && (forall i, j :: 0 <= i < j < |s.answered| ==> s.answered[i] != s.answered[j])
  }

  ghost predicate Consistent(s: System) {
    RowsOk(s.db) && IntentsOk(s.db, s.issued) && OnePerRun(s.issued) && s.inFlight <= s.issued && Evidenced(s)
  }

  // -- rows -------------------------------------------------------------------

  lemma AppendKeepsLog(log: seq<LogEvent>, p: DispatchPhase)
    requires Canonical(log) && Rank(Last(log)) < Rank(p)
    ensures Canonical(Append(log, p)) && Last(Append(log, p)) == p
    ensures AppendAfterLast(log, p) == Append(log, p)
  {
    var next := Append(log, p);
    forall i, j | 0 <= i < j < |next| ensures Rank(next[i].phase) < Rank(next[j].phase) {
      assert i < |log| - 1 ==> Rank(log[i].phase) < Rank(log[|log| - 1].phase);
    }
  }

  lemma RankIsInjective(p: DispatchPhase, q: DispatchPhase)
    requires Rank(p) == Rank(q)
    ensures p == q
  {
  }

  /** What no transaction takes back from a run. */
  ghost predicate RowAdvances(before: ActionRun, after: ActionRun) {
    && before.action == after.action
    && |before.attempts| <= |after.attempts|
    && (before.attempts == [] && before.phase != IntentRecorded
       ==> after.attempts == [] && after.phase != IntentRecorded)
    && (before.attempts != [] && before.attempts[0].t2Committed ==> after.attempts[0].t2Committed)
  }

  ghost predicate RowsProgress(before: Db, after: Db) {
    && RowsOk(after)
    && (forall r :: r in before.runs ==> r in after.runs && RowAdvances(before.runs[r], after.runs[r]))
  }

  lemma ReplaceKeepsRows(db: Db, next: Db, rid: nat, run: ActionRun)
    requires RowsOk(db) && RunOk(run) && next.runs == db.runs[rid := run]
    requires rid in db.runs ==> RowAdvances(db.runs[rid], run)
    ensures RowsProgress(db, next)
  {
  }

  lemma FirstLogOk(hasTarget: bool, possibleEffect: bool)
    ensures LogOk(FirstLog(hasTarget, possibleEffect))
    ensures Last(FirstLog(hasTarget, possibleEffect))
        == if possibleEffect then MUTATION_TRIGGER_POSSIBLY_ISSUED else INPUT_SEQUENCE_STARTED
  {
    var log := Append([], COMMAND_ACCEPTED);
    if hasTarget {
      AppendKeepsLog(log, TARGET_RESOLVED);
      log := Append(log, TARGET_RESOLVED);
    }
    AppendKeepsLog(log, ACTIONABILITY_PASSED);
    AppendKeepsLog(Append(log, ACTIONABILITY_PASSED), INPUT_SEQUENCE_STARTED);
    AppendKeepsLog(Append(Append(log, ACTIONABILITY_PASSED), INPUT_SEQUENCE_STARTED), MUTATION_TRIGGER_POSSIBLY_ISSUED);
  }

  lemma PrepareKeepsRows(db: Db, rid: nat, now: int, uploadReady: bool)
    requires RowsOk(db)
    ensures RowsProgress(db, PrepareAction(db, rid, now, uploadReady).0)
    ensures PrepareAction(db, rid, now, uploadReady).1.Dispatched? ==>
              var (next, r) := PrepareAction(db, rid, now, uploadReady);
              db.runs[rid].attempts == [] && IntentOk(next, r.intent) && r.intent.runId == rid
  {
    var (next, r) := PrepareAction(db, rid, now, uploadReady);
    if r.Dispatched? {
      var run := db.runs[rid];
      FirstLogOk(run.hasTarget, Mutating(run.action));
      assert RunOk(run) && run.attempts == [];
      var after := next.runs[rid];
      assert after.attempts[0].log == FirstLog(run.hasTarget, Mutating(run.action));
      assert AttemptOk(after, after.attempts[0]);
      ReplaceKeepsRows(db, next, rid, after);
    }
  }

  /** T2 and `dispatchPhase` rewrite the one attempt of a run. */
  lemma AttemptKeepsRows(db: Db, next: Db, rid: nat, run: ActionRun, a: Attempt)
    requires RowsOk(db) && rid in db.runs && db.runs[rid].attempts != []
    requires next.runs == db.runs[rid := run] && run.attempts == db.runs[rid].attempts[0 := a]
    requires run.action == db.runs[rid].action && run.nextAttempt == db.runs[rid].nextAttempt
    requires run.phase !in {IntentRecorded, TargetResolvedPhase, PreconditionVerified}
    requires AttemptOk(run, a) && (db.runs[rid].attempts[0].t2Committed ==> a.t2Committed)
    ensures RowsProgress(db, next)
  {
    assert RunOk(db.runs[rid]);
    assert RunOk(run);
    ReplaceKeepsRows(db, next, rid, run);
  }

  lemma CommitKeepsRows(db: Db, intent: Intent, observed: bool, freshDocument: nat)
    requires RowsOk(db)
    ensures RowsProgress(db, CommitAction(db, intent, observed, freshDocument).0)
    ensures CommitAction(db, intent, observed, freshDocument).1 == Done ==>
              T2Done(CommitAction(db, intent, observed, freshDocument).0, intent.runId)
  {
    if Committable(db, intent) {
      var next := CommitAction(db, intent, observed, freshDocument).0;
      var run := db.runs[intent.runId];
      assert RunOk(run);
      var attempt := run.attempts[0];
      AppendKeepsLog(attempt.log, METHOD_RETURNED);
      AppendKeepsLog(Append(attempt.log, METHOD_RETURNED), POST_OBSERVATION_CAPTURED);
      var after := next.runs[intent.runId];
      assert after.attempts == run.attempts[0 := after.attempts[0]];
      AttemptKeepsRows(db, next, intent.runId, after, after.attempts[0]);
    }
  }

  lemma PhaseKeepsAttempt(run: ActionRun, a: Attempt, p: DispatchPhase, version: nat)
    requires AttemptOk(run, a) && Rank(p) >= Rank(Last(a.log)) && p != Last(a.log)
    ensures AttemptOk(run.(phase := PhaseAfter(p), stateVersion := version, attempts := [NextLog(a, p)]), NextLog(a, p))
    ensures PhaseAfter(p) !in {IntentRecorded, TargetResolvedPhase, PreconditionVerified}
  {
    if Rank(p) == Rank(Last(a.log)) { RankIsInjective(p, Last(a.log)); }
    AppendKeepsLog(a.log, p);
  }

  function NextLog(a: Attempt, p: DispatchPhase): Attempt { a.(log := AppendAfterLast(a.log, p)) }

  lemma PhaseKeepsRows(db: Db, rid: nat, p: DispatchPhase, evidence: bool, expected: Option<nat>)
    requires RowsOk(db)
    ensures RowsProgress(db, RecordPhase(db, rid, p, evidence, expected).0)
  {
    var (next, r) := RecordPhase(db, rid, p, evidence, expected);
    if r == Done {
      var run := db.runs[rid];
      assert RunOk(run) && |run.attempts| == 1;
      var a := run.attempts[0];
      PhaseKeepsAttempt(run, a, p, run.stateVersion + 1);
      var after := run.(phase := PhaseAfter(p), stateVersion := run.stateVersion + 1, attempts := [NextLog(a, p)]);
      assert run.attempts[0 := NextLog(a, p)] == [NextLog(a, p)];
      assert next.runs == db.runs[rid := after];
      AttemptKeepsRows(db, next, rid, after, NextLog(a, p));
    }
  }

  /** Writing an outcome or an ambiguity onto a run. */
  lemma OutcomeKeepsRun(run: ActionRun, phase: Phase)
    requires RunOk(run)
    requires phase in {ConfirmedApplied, ConfirmedNotApplied, FailedFinal, Unknown}
    ensures RunOk(run.(phase := phase, stateVersion := run.stateVersion + 1))
  {
  }

  lemma FailKeepsRows(db: Db, intent: Intent)
    requires RowsOk(db)
    ensures RowsProgress(db, FailAction(db, intent))
  {
    var next := FailAction(db, intent);
    if next != db {
      OutcomeKeepsRun(db.runs[intent.runId], Unknown);
      ReplaceKeepsRows(db, next, intent.runId, next.runs[intent.runId]);
    }
  }

  lemma SettleKeepsRows(db: Db, rid: nat, verdict: Verdict, expected: Option<nat>)
    requires RowsOk(db)
    ensures RowsProgress(db, Settle(db, rid, verdict, expected).0)
  {
    var (next, r) := Settle(db, rid, verdict, expected);
    if r == Done {
      var phase := VerdictPhase(verdict);
      assert next == SettleRow(db, rid, phase);
      OutcomeKeepsRun(db.runs[rid], phase);
      ReplaceKeepsRows(db, SettleRow(db, rid, phase), rid, next.runs[rid]);
    } else {
      assert next == db;
    }
  }

  lemma ReconcileKeepsRows(db: Db, rid: nat, readBack: ReadBack, expected: Option<nat>)
    requires RowsOk(db)
    ensures RowsProgress(db, Reconcile(db, rid, readBack, expected).0)
  {
    var (next, r) := Reconcile(db, rid, readBack, expected);
    if r == Done {
      OutcomeKeepsRun(db.runs[rid], Derive(db.runs[rid].action, readBack));
      ReplaceKeepsRows(db, next, rid, next.runs[rid]);
    }
  }

  lemma StepKeepsRows(s: System, op: Op)
    requires RowsOk(s.db)
    ensures RowsProgress(s.db, Step(s, op).db)
  {
    match op
    case OpT1(rid, now, upload) => PrepareKeepsRows(s.db, rid, now, upload);
    case OpT2(intent, observed, d) => CommitKeepsRows(s.db, intent, observed, d);
    case OpPhase(rid, p, evidence, expected) => PhaseKeepsRows(s.db, rid, p, evidence, expected);
    case OpFail(intent) => FailKeepsRows(s.db, intent);
    case OpSettle(rid, verdict, expected) => SettleKeepsRows(s.db, rid, verdict, expected);
    case OpReconcile(rid, readBack, expected) => ReconcileKeepsRows(s.db, rid, readBack, expected);
    case OpStart(rid, _, _, _, _, _, _, _) =>
      var next := Step(s, op).db;
      if next != s.db { ReplaceKeepsRows(s.db, next, rid, next.runs[rid]); }
    case OpSession(_, _) =>
    case OpHost(_) =>
    case OpDeliver(_, _, _) =>
  }

  // -- messages ---------------------------------------------------------------

  lemma DeliverKeepsEvidence(s: System, intent: Intent, now: int, originAllowed: bool)
    requires Evidenced(s) && s.inFlight <= s.issued
        && (intent in s.inFlight ==> intent.frame.Action? && intent.frame.actionId == intent.runId)
    ensures Evidenced(Deliver(s, intent, now, originAllowed))
  {
  }

  lemma DeliverKeepsMessages(s: System, intent: Intent, now: int, originAllowed: bool)
    requires Consistent(s)
    ensures Consistent(Deliver(s, intent, now, originAllowed))
  {
    if intent in s.inFlight { assert IntentOk(s.db, intent); }
    DeliverKeepsEvidence(s, intent, now, originAllowed);
  }

  lemma IssueKeepsUnique(db: Db, issued: set<Intent>, intent: Intent)
    requires IntentsOk(db, issued) && OnePerRun(issued)
    requires intent.runId in db.runs && db.runs[intent.runId].attempts == []
    ensures intent !in issued && OnePerRun(issued + {intent})
  {
    forall n | n in issued ensures n.runId != intent.runId {
      assert IntentOk(db, n);
    }
  }

  lemma IntentsSurvive(before: Db, after: Db, issued: set<Intent>)
    requires IntentsOk(before, issued) && RowsProgress(before, after)
    ensures IntentsOk(after, issued)
  {
    forall n | n in issued ensures IntentOk(after, n) {
      assert IntentOk(before, n);
    }
  }

  /** A new intent belongs to a run that had none, so it is unique and not yet answered. */
  lemma IssueKeepsMessages(s: System, db: Db, intent: Intent)
    requires Consistent(s) && RowsProgress(s.db, db) && IntentOk(db, intent)
    requires intent.runId in s.db.runs && s.db.runs[intent.runId].attempts == []
    ensures Consistent(s.(db := db, issued := s.issued + {intent}, inFlight := s.inFlight + {intent}))
  {
    IssueKeepsUnique(s.db, s.issued, intent);
    IntentsSurvive(s.db, db, s.issued);
    var next := s.(db := db, issued := s.issued + {intent}, inFlight := s.inFlight + {intent});
    assert IntentsOk(db, next.issued);
    forall i | 0 <= i < |s.answered| ensures s.answered[i] != intent {
      assert s.answered[i] in s.issued;
    }
    assert Evidenced(next);
  }

  /** Steps that neither send nor deliver: only the tables or the host's contexts change. */
  lemma QuietStepKeepsMessages(s: System, next: System)
    requires Consistent(s) && RowsProgress(s.db, next.db)
    requires next.host.executed == s.host.executed
    requires next.issued == s.issued && next.inFlight == s.inFlight && next.answered == s.answered
    ensures Consistent(next)
  {
    IntentsSurvive(s.db, next.db, s.issued);
  }

  lemma StepKeepsConsistent(s: System, op: Op)
    requires Consistent(s)
    ensures Consistent(Step(s, op))
  {
    StepKeepsRows(s, op);
    match op
    case OpDeliver(intent, now, allowed) => DeliverKeepsMessages(s, intent, now, allowed);
    case OpT1(rid, now, upload) =>
      PrepareKeepsRows(s.db, rid, now, upload);
      var (db, r) := PrepareAction(s.db, rid, now, upload);
      if r.Dispatched? { IssueKeepsMessages(s, db, r.intent); }
      else { QuietStepKeepsMessages(s, Step(s, op)); }
    case _ => QuietStepKeepsMessages(s, Step(s, op));
  }

  lemma {:induction false} RunIsConsistent(s: System, ops: seq<Op>)
    requires Consistent(s)
    ensures Consistent(Run(s, ops))
    decreases |ops|
  {
    if ops != [] {
      StepKeepsConsistent(s, ops[0]);
      RunIsConsistent(Step(s, ops[0]), ops[1..]);
    }
  }

  // ---------------------------------------------------------------------------
  // Main results
  // ---------------------------------------------------------------------------

  /**
   Whoever appends, the dispatch log of every attempt is numbered 1..n with
   phases in strictly increasing canonical order, the run's phase agrees with the
   last logged phase, and a run has at most one attempt and never returns to
   INTENT_RECORDED once it has it.
   */
  lemma DispatchLogIsCanonical(ops: seq<Op>, rid: nat)
    requires rid in Run(BOOT, ops).db.runs
    ensures var run := Run(BOOT, ops).db.runs[rid];
            && |run.attempts| <= 1
            && (run.attempts != [] ==>
                  && run.phase != IntentRecorded
                  && var log := run.attempts[0].log;
                     && log != []
                     && (forall i :: 0 <= i < |log| ==> log[i].sequence == i + 1)
                     && (forall i, j :: 0 <= i < j < |log| ==> Rank(log[i].phase) < Rank(log[j].phase))
                     && (run.phase == DispatchAuthorized ==> Last(log) == INPUT_SEQUENCE_STARTED)
                     && (run.phase == PossibleEffect ==> Last(log) == MUTATION_TRIGGER_POSSIBLY_ISSUED))
  {
    RunIsConsistent(BOOT, ops);
    assert RunOk(Run(BOOT, ops).db.runs[rid]);
  }

  /** With frames delivered at most once, the host runs every action at most once, across all its contexts. */
  lemma ActionRunsAtMostOnce(ops: seq<Op>, i: nat, j: nat)
    requires i < j < |Run(BOOT, ops).host.executed|
    ensures Run(BOOT, ops).host.executed[i].actionId != Run(BOOT, ops).host.executed[j].actionId
  {
    RunIsConsistent(BOOT, ops);
    var s := Run(BOOT, ops);
    assert s.answered[i] in s.issued && s.answered[j] in s.issued;
  }

  lemma {:induction false} T2Stays(s: System, ops: seq<Op>, rid: nat)
    requires RowsOk(s.db) && T2Done(s.db, rid)
    ensures RowsOk(Run(s, ops).db) && T2Done(Run(s, ops).db, rid)
    decreases |ops|
  {
    if ops != [] {
      StepKeepsRows(s, ops[0]);
      assert RowAdvances(s.db.runs[rid], Step(s, ops[0]).db.runs[rid]);
      T2Stays(Step(s, ops[0]), ops[1..], rid);
    }
  }

  lemma T2DoneIsStale(db: Db, again: Intent, observed: bool, d: nat)
    requires RowsOk(db) && T2Done(db, again.runId)
    ensures CommitAction(db, again, observed, d) == (db, Refused(T2Stale))
  {
    assert RunOk(db.runs[again.runId]);
  }

  lemma CommitMarksT2(s: System, intent: Intent, observed: bool, d: nat)
    requires RowsOk(s.db) && intent in s.answered && CommitAction(s.db, intent, observed, d).1 == Done
    ensures var next := Step(s, OpT2(intent, observed, d)); RowsOk(next.db) && T2Done(next.db, intent.runId)
  {
    CommitKeepsRows(s.db, intent, observed, d);
  }

  lemma ReachableRowsOk(ops: seq<Op>)
    ensures RowsOk(Run(BOOT, ops).db)
  {
    RunIsConsistent(BOOT, ops);
  }

  /**
   T2 commits at most once per run: after the first commit every other one is refused, whatever happens in between.
  */
  lemma T2CommitsAtMostOnce(
      before: seq<Op>, intent: Intent, observed: bool, d: nat, between: seq<Op>, again: Intent, laterObserved: bool,
      laterDocument: nat)
    requires var s := Run(BOOT, before); intent in s.answered && CommitAction(s.db, intent, observed, d).1 == Done
    requires again.runId == intent.runId
    ensures var s := Run(Step(Run(BOOT, before), OpT2(intent, observed, d)), between);
            CommitAction(s.db, again, laterObserved, laterDocument) == (s.db, Refused(T2Stale))
  {
    ReachableRowsOk(before);
    CommitMarksT2(Run(BOOT, before), intent, observed, d);
    var s1 := Step(Run(BOOT, before), OpT2(intent, observed, d));
    T2Stays(s1, between, intent.runId);
    T2DoneIsStale(Run(s1, between).db, again, laterObserved, laterDocument);
  }

  lemma LateStepAfterT2(s: System, op: Op, rid: nat)
    requires RowsOk(s.db) && T2Done(s.db, rid) && Late(op)
    ensures rid in Step(s, op).db.runs && Step(s, op).db.runs[rid] == s.db.runs[rid]
  {
    var run := s.db.runs[rid];
    assert RunOk(run);
    match op
    case OpT2(intent, observed, d) => if intent.runId == rid { T2DoneIsStale(s.db, intent, observed, d); }
    case _ =>
  }

  /**
   After a committed T2, phase reports, verdicts or anything else may follow: no T1, no T2, no frame and no
   `failAction` that comes late changes the run again.
  */
  lemma LateStepsAfterT2ChangeNothing(
      before: seq<Op>, intent: Intent, observed: bool, d: nat, between: seq<Op>, late: Op)
    requires var s := Run(BOOT, before); intent in s.answered && CommitAction(s.db, intent, observed, d).1 == Done
    requires Late(late)
    ensures var s := Run(Step(Run(BOOT, before), OpT2(intent, observed, d)), between);
            && intent.runId in s.db.runs && intent.runId in Step(s, late).db.runs
            && Step(s, late).db.runs[intent.runId] == s.db.runs[intent.runId]
  {
    ReachableRowsOk(before);
    CommitMarksT2(Run(BOOT, before), intent, observed, d);
    var s1 := Step(Run(BOOT, before), OpT2(intent, observed, d));
    T2Stays(s1, between, intent.runId);
    LateStepAfterT2(Run(s1, between), late, intent.runId);
  }

  ghost predicate T2Backed(s: System) {
    forall r :: T2Done(s.db, r) ==> Ran(s, r)
  }

  lemma PrepareMarksNothing(db: Db, rid: nat, now: int, uploadReady: bool, r: nat)
    requires !T2Done(db, r)
    ensures !T2Done(PrepareAction(db, rid, now, uploadReady).0, r)
  {
  }

  lemma PhaseMarksNothing(db: Db, rid: nat, p: DispatchPhase, evidence: bool, expected: Option<nat>, r: nat)
    requires RowsOk(db) && !T2Done(db, r)
    ensures !T2Done(RecordPhase(db, rid, p, evidence, expected).0, r)
  {
    if rid in db.runs { assert RunOk(db.runs[rid]); }
  }

  lemma OnlyT2MarksT2(s: System, op: Op, r: nat)
    requires RowsOk(s.db) && !T2Done(s.db, r) && T2Done(Step(s, op).db, r)
    ensures op.OpT2? && op.intent.runId == r && op.intent in s.answered
  {
    match op
    case OpT1(rid, now, upload) => PrepareMarksNothing(s.db, rid, now, upload, r);
    case OpPhase(rid, p, evidence, expected) => PhaseMarksNothing(s.db, rid, p, evidence, expected, r);
    case _ =>
  }

  lemma StepKeepsEffects(s: System, op: Op, r: nat)
    requires Ran(s, r)
    ensures Ran(Step(s, op), r)
  {
    var i :| 0 <= i < |s.host.executed| && s.host.executed[i].actionId == r;
    assert Step(s, op).host.executed[i].actionId == r;
  }

  lemma StepBacksT2(s: System, op: Op)
    requires Consistent(s) && T2Backed(s)
    ensures T2Backed(Step(s, op))
  {
    forall r | T2Done(Step(s, op).db, r) ensures Ran(Step(s, op), r) {
      if !T2Done(s.db, r) {
        OnlyT2MarksT2(s, op, r);
        var i :| 0 <= i < |s.answered| && s.answered[i] == op.intent;
        assert s.host.executed[i].actionId == r;
      }
      StepKeepsEffects(s, op, r);
    }
  }

  /** A committed outcome is always backed by an effect at the host: T2 never runs ahead of the action. */
  lemma {:induction false} CommittedOutcomeHasEffect(s: System, ops: seq<Op>, rid: nat)
    requires Consistent(s) && T2Backed(s) && T2Done(Run(s, ops).db, rid)
    ensures Ran(Run(s, ops), rid)
    decreases |ops|
  {
    if ops != [] {
      StepBacksT2(s, ops[0]);
      StepKeepsConsistent(s, ops[0]);
      CommittedOutcomeHasEffect(Step(s, ops[0]), ops[1..], rid);
    }
  }

  predicate Late(op: Op) {
    op.OpT2? || op.OpFail? || op.OpDeliver? || op.OpHost? || op.OpT1?
  }

  /** Late commits, lost answers and late frames never overwrite an outcome that is already recorded. */
  lemma {:induction false} OutcomeIsNotOverwritten(s: System, late: seq<Op>, rid: nat)
    requires rid in s.db.runs && s.db.runs[rid].phase !in {IntentRecorded, DispatchAuthorized, PossibleEffect}
    requires forall i :: 0 <= i < |late| ==> Late(late[i])
    ensures rid in Run(s, late).db.runs && Run(s, late).db.runs[rid] == s.db.runs[rid]
    decreases |late|
  {
    if late != [] {
      var next := Step(s, late[0]);
      assert next.db.runs[rid] == s.db.runs[rid];
      OutcomeIsNotOverwritten(next, late[1..], rid);
    }
  }

  lemma UnattemptedHasNotRun(s: System, rid: nat)
    requires Consistent(s) && rid in s.db.runs && s.db.runs[rid].attempts == []
    ensures !Ran(s, rid)
  {
    forall i | 0 <= i < |s.host.executed| ensures s.host.executed[i].actionId != rid {
      assert IntentOk(s.db, s.answered[i]);
    }
  }

  /** A run that left INTENT_RECORDED without an attempt is never sent to the host, in any continuation. */
  lemma {:induction false} NoAttemptNoEffect(s: System, ops: seq<Op>, rid: nat)
    requires Consistent(s) && rid in s.db.runs && s.db.runs[rid].attempts == []
        && s.db.runs[rid].phase != IntentRecorded
    ensures !Ran(Run(s, ops), rid)
    decreases |ops|
  {
    if ops == [] {
      UnattemptedHasNotRun(s, rid);
    } else {
      var next := Step(s, ops[0]);
      StepKeepsRows(s, ops[0]);
      assert RowAdvances(s.db.runs[rid], next.db.runs[rid]);
      StepKeepsConsistent(s, ops[0]);
      NoAttemptNoEffect(next, ops[1..], rid);
    }
  }

  // -- cancellation -----------------------------------------------------------

  /** The protocol without the handlers that classify an outcome or report a phase. */
  predicate Core(op: Op) {
    !op.OpPhase? && !op.OpReconcile? && (op.OpSettle? ==> op.verdict == Cancel)
  }

  ghost predicate StaysOpen(db: Db) {
    forall r :: r in db.runs && Mutating(db.runs[r].action) && db.runs[r].attempts != []
        ==> NeedsReconciliation(db.runs[r].phase)
  }

  lemma T1StaysOpen(db: Db, rid: nat, now: int, uploadReady: bool)
    requires StaysOpen(db)
    ensures StaysOpen(PrepareAction(db, rid, now, uploadReady).0)
  {
  }

  lemma T2StaysOpen(db: Db, intent: Intent, observed: bool, d: nat)
    requires StaysOpen(db)
    ensures StaysOpen(CommitAction(db, intent, observed, d).0)
  {
  }

  lemma CoreStepStaysOpen(s: System, op: Op)
    requires StaysOpen(s.db) && Core(op)
    ensures StaysOpen(Step(s, op).db)
  {
    match op
    case OpT1(rid, now, upload) => T1StaysOpen(s.db, rid, now, upload);
    case OpT2(intent, observed, d) => T2StaysOpen(s.db, intent, observed, d);
    case _ =>
  }

  lemma {:induction false} CoreRunStaysOpen(s: System, ops: seq<Op>)
    requires StaysOpen(s.db) && forall i :: 0 <= i < |ops| ==> Core(ops[i])
    ensures StaysOpen(Run(s, ops).db)
    decreases |ops|
  {
    if ops != [] {
      CoreStepStaysOpen(s, ops[0]);
      CoreRunStaysOpen(Step(s, ops[0]), ops[1..]);
    }
  }

  /**
   In the core protocol an action with a possible effect is in POSSIBLE_EFFECT,
   RECONCILING or UNKNOWN from T1 on; so CONFIRMED_NOT_APPLIED on it means that
   the host has not run it, and will not in any continuation.
   */
  lemma NotAppliedMeansNeverRan(ops: seq<Op>, rid: nat, more: seq<Op>)
    requires forall i :: 0 <= i < |ops| ==> Core(ops[i])
    requires var db := Run(BOOT, ops).db;
             rid in db.runs && db.runs[rid].action !in HARMLESS && db.runs[rid].phase == ConfirmedNotApplied
    ensures !Ran(Run(Run(BOOT, ops), more), rid)
  {
    RunIsConsistent(BOOT, ops);
    CoreRunStaysOpen(BOOT, ops);
    NoAttemptNoEffect(Run(BOOT, ops), more, rid);
  }

  /** With every handler allowed: a cancel was accepted on a possibly mutating run, yet the host has run it or will. */
  ghost predicate Misreported(ops: seq<Op>, rid: nat, more: seq<Op>) {
    var s := Run(BOOT, ops);
    && rid in s.db.runs && s.db.runs[rid].action !in HARMLESS
    && Settle(s.db, rid, Cancel, None).1 == Done
    && Ran(Run(Step(s, OpSettle(rid, Cancel, None)), more), rid)
  }

  ghost predicate MisreportsFrom(p: Phase) {
    exists ops: seq<Op>, rid: nat, more: seq<Op> ::
      rid in Run(BOOT, ops).db.runs && Run(BOOT, ops).db.runs[rid].phase == p && Misreported(ops, rid, more)
  }

  const ID := H.Identity(0, 1, 1, 0, 1, 0, 0, 0)
  const CLICKABLE := Session(Active, ID, Some(HostLease(1, 1, ID)), Ai, 100, 0, 0, true, 1)
  const CLICK_INTENT := Intent(0, 1, H.Action(ID, H.Lease(1, 1, ACTION_LEASE_MILLIS), 0, 1, true))

  /** A session is attached, a click is started, committed by T1, delivered and run. */
  const CLICK_OPS: seq<Op> := [
    OpSession(0, CLICKABLE),
    OpStart(0, 0, CLICK, true, true, None, None, None),
    OpHost(H.AttachStored(ID, H.Lease(1, 1, 100))),
    OpT1(0, 0, true),
    OpDeliver(CLICK_INTENT, 0, true)]

  lemma ClickReachesTheHost()
    ensures var s := Run(BOOT, CLICK_OPS);
            && Ran(s, 0) && 0 in s.db.runs && s.db.runs[0].action == CLICK && s.db.runs[0].phase == PossibleEffect
            && |s.db.runs[0].attempts| == 1 && s.db.runs[0].attempts[0].log == FirstLog(true, true)
  {
    var s1 := Step(BOOT, CLICK_OPS[0]);
    var s2 := Step(s1, CLICK_OPS[1]);
    var s3 := Step(s2, CLICK_OPS[2]);
    var s4 := Step(s3, CLICK_OPS[3]);
    assert s2.db.sessions[0] == CLICKABLE;
    assert s2.db.runs[0] == ActionRun(0, CLICK, true, true, 0, 0, 0, IntentRecorded, 1, 1, []);
    assert s4.inFlight == {CLICK_INTENT};
    var s5 := Step(s4, CLICK_OPS[4]);
    assert s5.host.executed == [H.Executed(1, 1, 0, 1)];
    assert s5.host.executed[0].actionId == 0;
    RunOne(s4, CLICK_OPS[4]);
    RunAppend(BOOT, CLICK_OPS[..4], [CLICK_OPS[4]]);
    RunOne(s3, CLICK_OPS[3]);
    RunAppend(BOOT, CLICK_OPS[..3], [CLICK_OPS[3]]);
    RunOne(s2, CLICK_OPS[2]);
    RunAppend(BOOT, CLICK_OPS[..2], [CLICK_OPS[2]]);
    RunOne(s1, CLICK_OPS[1]);
    RunAppend(BOOT, CLICK_OPS[..1], [CLICK_OPS[1]]);
    RunOne(BOOT, CLICK_OPS[0]);
    assert CLICK_OPS[..1] == [CLICK_OPS[0]];
    assert CLICK_OPS[..2] == CLICK_OPS[..1] + [CLICK_OPS[1]];
    assert CLICK_OPS[..3] == CLICK_OPS[..2] + [CLICK_OPS[2]];
    assert CLICK_OPS[..4] == CLICK_OPS[..3] + [CLICK_OPS[3]];
    assert CLICK_OPS == CLICK_OPS[..4] + [CLICK_OPS[4]];
  }

  lemma RunOne(s: System, op: Op)
    ensures Run(s, [op]) == Step(s, op)
  {
  }

  lemma {:induction false} RunAppend(s: System, a: seq<Op>, b: seq<Op>)
    ensures Run(s, a + b) == Run(Run(s, a), b)
    decreases |a|
  {
    if a == [] {
      assert a + b == b;
    } else {
      assert (a + b)[1..] == a[1..] + b;
      RunAppend(Step(s, a[0]), a[1..], b);
    }
  }

  /** The step that leads from the executed click to a phase in which cancel is accepted. */
  function Misleading(p: Phase): Op
    requires p in {OutcomeObserved, ConfirmedApplied, ConfirmedNotApplied, FailedFinal}
  {
    if p == OutcomeObserved then OpPhase(0, POST_OBSERVATION_CAPTURED, true, None)
    else if p == FailedFinal then OpSettle(0, Fail, None)
    else OpSettle(0, Resolve(p, true), None)
  }

  lemma MisleadingStep(s: System, p: Phase)
    requires p in {OutcomeObserved, ConfirmedApplied, ConfirmedNotApplied, FailedFinal}
    requires 0 in s.db.runs && |s.db.runs[0].attempts| == 1 && s.db.runs[0].attempts[0].log == FirstLog(true, true)
    ensures var t := Step(s, Misleading(p));
            0 in t.db.runs && t.db.runs[0].phase == p && t.db.runs[0].action == s.db.runs[0].action && t.host == s.host
  {
    FirstLogOk(true, true);
  }

  lemma CancelAfterTheFact(ops: seq<Op>, rid: nat)
    requires rid in Run(BOOT, ops).db.runs && Run(BOOT, ops).db.runs[rid].action !in HARMLESS
    requires !NeedsReconciliation(Run(BOOT, ops).db.runs[rid].phase) && Ran(Run(BOOT, ops), rid)
    ensures Misreported(ops, rid, [])
  {
    var t := Run(BOOT, ops);
    var cancelled := Step(t, OpSettle(rid, Cancel, None));
    assert cancelled.host == t.host;
    var i :| 0 <= i < |t.host.executed| && t.host.executed[i].actionId == rid;
    assert cancelled.host.executed[i].actionId == rid;
    assert Run(cancelled, []) == cancelled;
  }

  lemma MisleadingPhaseIsReached(p: Phase)
    requires p in {OutcomeObserved, ConfirmedApplied, ConfirmedNotApplied, FailedFinal}
    ensures MisreportsFrom(p)
  {
    ClickReachesTheHost();
    var s := Run(BOOT, CLICK_OPS);
    var ops := CLICK_OPS + [Misleading(p)];
    MisleadingStep(s, p);
    RunAppend(BOOT, CLICK_OPS, [Misleading(p)]);
    RunOne(s, Misleading(p));
    var i :| 0 <= i < |s.host.executed| && s.host.executed[i].actionId == 0;
    assert Run(BOOT, ops).host.executed[i].actionId == 0;
    CancelAfterTheFact(ops, 0);
  }

  /** In any other phase a run whose cancel is accepted has no attempt yet. */
  lemma CancelledBeforeAttempt(run: ActionRun)
    requires RunOk(run) && !NeedsReconciliation(run.phase) && run.action !in HARMLESS
    requires run.phase !in {OutcomeObserved, ConfirmedApplied, ConfirmedNotApplied, FailedFinal}
    ensures run.phase == IntentRecorded && run.attempts == []
  {
  }

  lemma {:induction false} CancelledNeverRuns(s: System, rid: nat, more: seq<Op>)
    requires Consistent(s) && rid in s.db.runs && s.db.runs[rid].attempts == []
    requires Settle(s.db, rid, Cancel, None).1 == Done
    ensures !Ran(Run(Step(s, OpSettle(rid, Cancel, None)), more), rid)
  {
    StepKeepsConsistent(s, OpSettle(rid, Cancel, None));
    NoAttemptNoEffect(Step(s, OpSettle(rid, Cancel, None)), more, rid);
  }

  lemma {:induction false} OtherPhasesNeverMisreport(ops: seq<Op>, rid: nat, more: seq<Op>)
    requires rid in Run(BOOT, ops).db.runs
    requires Run(BOOT, ops).db.runs[rid].phase !in {OutcomeObserved, ConfirmedApplied, ConfirmedNotApplied, FailedFinal}
    ensures !Misreported(ops, rid, more)
  {
    var s := Run(BOOT, ops);
    RunIsConsistent(BOOT, ops);
    if s.db.runs[rid].action !in HARMLESS && Settle(s.db, rid, Cancel, None).1 == Done {
      CancelledBeforeAttempt(s.db.runs[rid]);
      CancelledNeverRuns(s, rid, more);
    }
  }

  /**
   `browser.action.cancel` must never call an action "not applied" if it ran.
   With phase reports, failures and resolutions allowed it can: exactly from the
   four phases its guard does not hold back although the action may have run.
   */
  lemma CancelMisreportsExactly(p: Phase)
    ensures MisreportsFrom(p) <==> p in {OutcomeObserved, ConfirmedApplied, ConfirmedNotApplied, FailedFinal}
  {
    if p in {OutcomeObserved, ConfirmedApplied, ConfirmedNotApplied, FailedFinal} {
      MisleadingPhaseIsReached(p);
    } else {
      forall ops: seq<Op>, rid: nat, more: seq<Op> | rid in Run(BOOT, ops).db.runs
          && Run(BOOT, ops).db.runs[rid].phase == p
        ensures !Misreported(ops, rid, more)
      {
        OtherPhasesNeverMisreport(ops, rid, more);
      }
    }
  }
}
