/**
 The browser action protocol: T1 commit, dispatch to the host, T2 commit.

 The database commits an intent with a fresh action fence (T1), a frame goes to
 the host process, and the outcome is committed afterwards (T2).  A worker may
 die and a frame or an answer may be lost at any point, which here simply means
 that the corresponding step never happens.  Every transaction is one step.
 */
module BrowserAction {
  import opened Options
  import opened BrowserSession
  import H = BrowserHost

  // ---------------------------------------------------------------------------
  // Action registry
  // ---------------------------------------------------------------------------

  datatype ActionName =
    | NAVIGATE | CLICK | FILL | TYPE | KEYBOARD | POINTING | TOUCH | UPLOAD | DOWNLOAD
    | DIALOG | PERMISSION | CHALLENGE | OBSERVE | UNREGISTERED

  datatype Effect = ReadOnly | Navigation | PossibleMutation | ArtifactTransfer | OwnerChallenge

  datatype TargetRule = Required | Forbidden | Optional

  function EffectOf(a: ActionName): Effect {
    match a
    case NAVIGATE => Navigation
    case UPLOAD | DOWNLOAD => ArtifactTransfer
    case DIALOG | PERMISSION | CHALLENGE => OwnerChallenge
    case OBSERVE => ReadOnly
    case _ => PossibleMutation
  }

  function TargetRuleOf(a: ActionName): TargetRule {
    match a
    case CLICK | FILL | TYPE | UPLOAD | DOWNLOAD => Required
    case KEYBOARD => Optional
    case _ => Forbidden
  }

  predicate DescriptorValid(a: ActionName, hasTarget: bool, payloadComplete: bool) {
    (TargetRuleOf(a) == Required ==> hasTarget) && (TargetRuleOf(a) == Forbidden ==> !hasTarget) && payloadComplete
  }

  /** The effect classes whose dispatch may have changed something outside. */
  predicate Mutating(a: ActionName) {
    EffectOf(a) != ReadOnly && EffectOf(a) != OwnerChallenge
  }

  // ---------------------------------------------------------------------------
  // Rows
  // ---------------------------------------------------------------------------

  datatype Phase =
    | IntentRecorded | TargetResolvedPhase | PreconditionVerified | DispatchAuthorized | PossibleEffect
    | OutcomeObserved | Reconciling | ConfirmedApplied | ConfirmedNotApplied | FailedFinal | Unknown

  datatype DispatchPhase =
    | COMMAND_ACCEPTED | TARGET_RESOLVED | ACTIONABILITY_PASSED | INPUT_SEQUENCE_STARTED
    | MUTATION_TRIGGER_POSSIBLY_ISSUED | NAVIGATION_OR_REQUEST_OBSERVED | METHOD_RETURNED | POST_OBSERVATION_CAPTURED

  function Rank(p: DispatchPhase): nat {
    match p
    case COMMAND_ACCEPTED => 1
    case TARGET_RESOLVED => 2
    case ACTIONABILITY_PASSED => 3
    case INPUT_SEQUENCE_STARTED => 4
    case MUTATION_TRIGGER_POSSIBLY_ISSUED => 5
    case NAVIGATION_OR_REQUEST_OBSERVED => 6
    case METHOD_RETURNED => 7
    case POST_OBSERVATION_CAPTURED => 8
  }

  datatype LogEvent = LogEvent(sequence: nat, phase: DispatchPhase)

  datatype Attempt = Attempt(number: nat, actionFence: nat, log: seq<LogEvent>, t2Committed: bool)

  /** `attempts` are the attempt rows of the run by attempt number. */
  datatype ActionRun = ActionRun(
    sessionId: nat, action: ActionName, hasTarget: bool, payloadComplete: bool,
    expectedControlEpoch: nat, expectedDocumentEpoch: nat, expectedObservationRevision: nat,
    phase: Phase, nextAttempt: nat, stateVersion: nat, attempts: seq<Attempt>)

  datatype Holder = NoHolder | Ai | Owner | Automation

  datatype HostLease = HostLease(leaseId: nat, fencingToken: nat, identity: H.Identity)

  /** `view` carries the fences the session row itself knows; `lease` is its attached dispatch lease. */
  datatype Session = Session(
    lifecycle: Lifecycle, view: H.Identity, lease: Option<HostLease>, holder: Holder, controlExpiresAt: int,
    controlEpoch: nat, observationRevision: nat, originsBound: bool, nextActionFence: nat)

  /** What T1 hands to the worker: the ACTION frame and the attempt it belongs to. */
  datatype Intent = Intent(runId: nat, attempt: nat, frame: H.Request)

  datatype Error =
    | NoWork | RunMissing | SessionNotReady | ControlHeld | FencingStale | ControlLeaseStale | ActionFenceStale
    | Unregistered
    | DescriptorRejected | IdentityStale | OriginsRequired | UploadExpired | T2Stale | VersionConflict
    | EvidenceRequired | NoAttempt | PhaseNotMonotonic | ReconciliationRequired | PostconditionFailed

  datatype Result = Done | Duplicate | Dispatched(intent: Intent) | Refused(error: Error)

  datatype Db = Db(sessions: map<nat, Session>, runs: map<nat, ActionRun>)

  const ACTION_LEASE_MILLIS := 30_000

  // ---------------------------------------------------------------------------
  // browser.action.start
  // ---------------------------------------------------------------------------

  predicate Matches(expected: Option<nat>, current: nat) {
    expected.None? || expected.value == current
  }

  function GetOr(o: Option<nat>, d: nat): nat {
    if o.Some? then o.value else d
  }

  function Start(db: Db, rid: nat, sid: nat, action: ActionName, hasTarget: bool, payloadComplete: bool,
                 control: Option<nat>, document: Option<nat>, observation: Option<nat>): (Db, Result)
  {
    if sid !in db.sessions || db.sessions[sid].lifecycle in {Closed, Failed, Expired}
      then (db, Refused(SessionNotReady))
    else
      var s := db.sessions[sid];
      if !Matches(control, s.controlEpoch) || !Matches(document, s.view.documentEpoch)
          || !Matches(observation, s.observationRevision)
      then (db, Refused(FencingStale))
      else if s.holder == NoHolder then (db, Refused(ControlHeld))
      else if rid in db.runs then (db, Refused(VersionConflict))
      else
        var run := ActionRun(sid, action, hasTarget, payloadComplete,
                             GetOr(control, s.controlEpoch), GetOr(document, s.view.documentEpoch),
                             GetOr(observation, s.observationRevision),
                             IntentRecorded, 1, 1, []);
        (db.(runs := db.runs[rid := run]), Done)
  }

  // ---------------------------------------------------------------------------
  // T1: prepareAction
  // ---------------------------------------------------------------------------

  predicate SameFences(left: H.Identity, right: H.Identity) {
    && left.contextGeneration == right.contextGeneration && left.pageGeneration == right.pageGeneration
    && left.pageId == right.pageId && left.frameId == right.frameId && left.documentEpoch == right.documentEpoch
  }

  /** T1 and T2 number an event by counting the rows there are. */
  function Append(log: seq<LogEvent>, p: DispatchPhase): seq<LogEvent> {
    log + [LogEvent(|log| + 1, p)]
  }

  /** `dispatchPhase` numbers it after the last row instead. */
  function AppendAfterLast(log: seq<LogEvent>, p: DispatchPhase): seq<LogEvent> {
    log + [LogEvent(if log == [] then 1 else log[|log| - 1].sequence + 1, p)]
  }

  function FirstLog(hasTarget: bool, possibleEffect: bool): seq<LogEvent> {
    var accepted := Append([], COMMAND_ACCEPTED);
    var resolved := if hasTarget then Append(accepted, TARGET_RESOLVED) else accepted;
    var started := Append(Append(resolved, ACTIONABILITY_PASSED), INPUT_SEQUENCE_STARTED);
    if possibleEffect then Append(started, MUTATION_TRIGGER_POSSIBLY_ISSUED) else started
  }

  predicate Waiting(db: Db, rid: nat) {
    && rid in db.runs && db.runs[rid].phase == IntentRecorded && db.runs[rid].sessionId in db.sessions
    && var s := db.sessions[db.runs[rid].sessionId]; (s.lifecycle == Ready || s.lifecycle == Active) && s.lease.Some?
  }

  /** Why T1 throws for a waiting run, in the order of its checks. */
  function Objection(s: Session, run: ActionRun, now: int, uploadReady: bool): Option<Error>
    requires s.lease.Some?
  {
    if s.controlExpiresAt <= now || s.holder == NoHolder then Some(ControlLeaseStale)
    else if run.expectedControlEpoch != s.controlEpoch || run.expectedDocumentEpoch != s.view.documentEpoch
            || run.expectedObservationRevision != s.observationRevision then Some(ActionFenceStale)
    else if run.action == UNREGISTERED then Some(Unregistered)
    else if !DescriptorValid(run.action, run.hasTarget, run.payloadComplete) then Some(DescriptorRejected)
    else if !SameFences(s.lease.value.identity, s.view) then Some(IdentityStale)
    else if !s.originsBound then Some(OriginsRequired)
    else if run.action == UPLOAD && !uploadReady then Some(UploadExpired)
    else None
  }

  function MakeIntent(s: Session, rid: nat, run: ActionRun, now: int): Intent
    requires s.lease.Some?
  {
    var l := s.lease.value;
    Intent(rid, run.nextAttempt,
           H.Action(l.identity, H.Lease(l.leaseId, l.fencingToken, now + ACTION_LEASE_MILLIS), rid, s.nextActionFence,
                    true))
  }

  function PrepareAction(db: Db, rid: nat, now: int, uploadReady: bool): (Db, Result) {
    if !Waiting(db, rid) then (db, Refused(NoWork))
    else
      var run := db.runs[rid];
      var s := db.sessions[run.sessionId];
      var objection := Objection(s, run, now, uploadReady);
      if objection.Some? then (db, Refused(objection.value))
      else
        var attempt :=
            Attempt(run.nextAttempt, s.nextActionFence, FirstLog(run.hasTarget, Mutating(run.action)), false);
        (Db(db.sessions[run.sessionId := s.(nextActionFence := s.nextActionFence + 1)],
            db.runs[rid := run.(phase := if Mutating(run.action) then PossibleEffect else DispatchAuthorized,
                                nextAttempt := run.nextAttempt + 1, stateVersion := run.stateVersion + 1,
                                attempts := run.attempts + [attempt])]),
         Dispatched(MakeIntent(s, rid, run, now)))
  }

  // ---------------------------------------------------------------------------
  // T2: commitAction and failAction
  // ---------------------------------------------------------------------------

  predicate HasAttempt(db: Db, intent: Intent) {
    intent.runId in db.runs && 1 <= intent.attempt <= |db.runs[intent.runId].attempts|
  }

  predicate Committable(db: Db, intent: Intent) {
    && HasAttempt(db, intent) && intent.frame.Action?
    && var run := db.runs[intent.runId];
       && run.sessionId in db.sessions
       && (run.phase == DispatchAuthorized || run.phase == PossibleEffect)
       && run.attempts[intent.attempt - 1].actionFence == intent.frame.actionFence
  }

  function Outcome(a: ActionName): Phase {
    if a == OBSERVE then ConfirmedNotApplied else Reconciling
  }

  /** The session after a committed observation; a navigation also moves it to a new document. */
  function Observed(s: Session, intent: Intent, a: ActionName, freshDocument: nat): Session
    requires intent.frame.Action?
  {
    var identity := if a == NAVIGATE
                    then intent.frame.identity.(
                      documentId := freshDocument, documentEpoch := intent.frame.identity.documentEpoch + 1)
                    else intent.frame.identity;
    var lease := if a == NAVIGATE && s.lease.Some? && s.lease.value.leaseId == intent.frame.lease.leaseId
                 then Some(s.lease.value.(identity := identity)) else s.lease;
    s.(observationRevision := s.observationRevision + 1, lease := lease,
       view := s.view.(documentEpoch := identity.documentEpoch))
  }

  function CommitAction(db: Db, intent: Intent, observation: bool, freshDocument: nat): (Db, Result) {
    if !Committable(db, intent) then (db, Refused(T2Stale))
    else
      var run := db.runs[intent.runId];
      var attempt := run.attempts[intent.attempt - 1];
      var returned := Append(attempt.log, METHOD_RETURNED);
      var log := if observation then Append(returned, POST_OBSERVATION_CAPTURED) else returned;
      var s := db.sessions[run.sessionId];
      (Db(if observation then db.sessions[run.sessionId := Observed(s, intent, run.action, freshDocument)]
          else db.sessions,
          db.runs[intent.runId := run.(phase := Outcome(run.action), stateVersion := run.stateVersion + 1,
                                       attempts := run.attempts[intent.attempt - 1 :=
                                           attempt.(log := log, t2Committed := true)])]),
       Done)
  }

  /** The worker lost the host's answer: the effect is ambiguous unless an outcome is already committed. */
  function FailAction(db: Db, intent: Intent): Db {
    if intent.runId in db.runs
        && (db.runs[intent.runId].phase == DispatchAuthorized || db.runs[intent.runId].phase == PossibleEffect)
    then
      var run := db.runs[intent.runId];
      db.(runs := db.runs[intent.runId := run.(phase := Unknown, stateVersion := run.stateVersion + 1)])
    else db
  }

  // ---------------------------------------------------------------------------
  // Canonical handlers
  // ---------------------------------------------------------------------------

  function PhaseAfter(p: DispatchPhase): Phase {
    match p
    case COMMAND_ACCEPTED => IntentRecorded
    case TARGET_RESOLVED => TargetResolvedPhase
    case ACTIONABILITY_PASSED => PreconditionVerified
    case INPUT_SEQUENCE_STARTED => DispatchAuthorized
    case MUTATION_TRIGGER_POSSIBLY_ISSUED => PossibleEffect
    case POST_OBSERVATION_CAPTURED => OutcomeObserved
    case _ => Reconciling
  }

  /** browser.action.dispatchPhase: the host's own report of how far it got. */
  function RecordPhase(db: Db, rid: nat, p: DispatchPhase, evidence: bool, expected: Option<nat>): (Db, Result) {
    if rid !in db.runs then (db, Refused(RunMissing))
    else
      var run := db.runs[rid];
      if !Matches(expected, run.stateVersion) then (db, Refused(VersionConflict))
      else if !evidence then (db, Refused(EvidenceRequired))
      else if run.attempts == [] then (db, Refused(NoAttempt))
      else
        var k := |run.attempts| - 1;
        var attempt := run.attempts[k];
        if attempt.log != [] && Rank(p) < Rank(attempt.log[|attempt.log| - 1].phase)
          then (db, Refused(PhaseNotMonotonic))
        else if attempt.log != [] && attempt.log[|attempt.log| - 1].phase == p then (db, Duplicate)
        else
          (db.(runs := db.runs[rid := run.(phase := PhaseAfter(p), stateVersion := run.stateVersion + 1,
                                           attempts := run.attempts[k :=
                                               attempt.(log := AppendAfterLast(attempt.log, p))])]),
           Done)
  }

  datatype Verdict = Cancel | Complete | Fail | Resolve(outcome: Phase, readBack: bool)

  predicate NeedsReconciliation(p: Phase) {
    p == PossibleEffect || p == Reconciling || p == Unknown
  }

  function VerdictPhase(v: Verdict): Phase {
    match v
    case Cancel => ConfirmedNotApplied
    case Complete => ConfirmedApplied
    case Fail => FailedFinal
    case Resolve(outcome, _) =>
      if outcome == ConfirmedApplied || outcome == ConfirmedNotApplied || outcome == Unknown then outcome
      else FailedFinal
  }

  /** browser.action.cancel, complete, fail and resolveOutcome. */
  function Settle(db: Db, rid: nat, v: Verdict, expected: Option<nat>): (Db, Result) {
    if rid !in db.runs then (db, Refused(RunMissing))
    else
      var run := db.runs[rid];
      if !Matches(expected, run.stateVersion) then (db, Refused(VersionConflict))
      else if v == Cancel && NeedsReconciliation(run.phase) then (db, Refused(ReconciliationRequired))
      else if v == Complete && run.phase != ConfirmedApplied then (db, Refused(PostconditionFailed))
      else if v.Resolve? && !v.readBack then (db, Refused(ReconciliationRequired))
      else (SettleRow(db, rid, VerdictPhase(v)), Done)
  }

  function SettleRow(db: Db, rid: nat, phase: Phase): Db
    requires rid in db.runs
  {
    var run := db.runs[rid];
    var sid := run.sessionId;
    Db(if phase == Unknown && sid in db.sessions
       then db.sessions[sid := db.sessions[sid].(lifecycle := Failed, holder := NoHolder)] else db.sessions,
       db.runs[rid := run.(phase := phase, stateVersion := run.stateVersion + 1)])
  }

  /** The independent read-back a reconciliation is decided on. */
  datatype ReadBack = ReadBack(
    trusted: bool, urlMatches: bool, uploadConsumed: bool, downloadVerified: bool, challengePending: bool)

  function Derive(a: ActionName, r: ReadBack): Phase {
    if !r.trusted then Unknown
    else
      match a
      case NAVIGATE => if r.urlMatches then ConfirmedApplied else Unknown
      case OBSERVE => ConfirmedNotApplied
      case UPLOAD => if r.uploadConsumed then ConfirmedApplied else Unknown
      case DOWNLOAD => if r.downloadVerified then ConfirmedApplied else Unknown
      case CHALLENGE | DIALOG | PERMISSION => if r.challengePending then ConfirmedNotApplied else Unknown
      case _ => Unknown
  }

  /** browser.action.reconcile. */
  function Reconcile(db: Db, rid: nat, r: ReadBack, expected: Option<nat>): (Db, Result) {
    if rid !in db.runs then (db, Refused(RunMissing))
    else
      var run := db.runs[rid];
      if !Matches(expected, run.stateVersion) then (db, Refused(VersionConflict))
      else if run.phase !in {Reconciling, PossibleEffect, OutcomeObserved, Unknown} then (db, Refused(VersionConflict))
      else (db.(runs := db.runs[rid := run.(phase := Derive(run.action, r), stateVersion := run.stateVersion + 1)]),
         Done)
  }

  // ---------------------------------------------------------------------------
  // What each transaction decides and writes
  // ---------------------------------------------------------------------------

  /** The actions that only look or wait for the owner; every other registered one may change something outside. */
  const HARMLESS := {OBSERVE, DIALOG, PERMISSION, CHALLENGE}

  /** CLICK, FILL, TYPE and the transfers need a target, KEYBOARD may have one, and no other action has one. */
  ghost predicate TargetFits(a: ActionName, hasTarget: bool) {
    && (a in {CLICK, FILL, TYPE, UPLOAD, DOWNLOAD} ==> hasTarget)
    && (a !in {CLICK, FILL, TYPE, UPLOAD, DOWNLOAD, KEYBOARD} ==> !hasTarget)
  }

  /** The session still shows what the run was started against. */
  ghost predicate FencesHold(s: Session, run: ActionRun) {
    && run.expectedControlEpoch == s.controlEpoch && run.expectedDocumentEpoch == s.view.documentEpoch
    && run.expectedObservationRevision == s.observationRevision
  }

  /** The attached lease is on the session's context, page, frame and document. */
  ghost predicate LeaseShows(s: Session) {
    && s.lease.Some?
    && var identity := s.lease.value.identity;
       && identity.contextGeneration == s.view.contextGeneration && identity.pageGeneration == s.view.pageGeneration
       && identity.pageId == s.view.pageId && identity.frameId == s.view.frameId
       && identity.documentEpoch == s.view.documentEpoch
  }

  /** The effect class of every registered action. */
  lemma RegistryIsExactly(a: ActionName)
    ensures EffectOf(a) == ReadOnly <==> a == OBSERVE
    ensures EffectOf(a) == Navigation <==> a == NAVIGATE
    ensures EffectOf(a) == ArtifactTransfer <==> a in {UPLOAD, DOWNLOAD}
    ensures EffectOf(a) == OwnerChallenge <==> a in {DIALOG, PERMISSION, CHALLENGE}
    ensures a != UNREGISTERED ==> (Mutating(a) <==> a !in HARMLESS)
  {
  }

  /** A run is taken up when its intent is recorded and its ready or active session has an attached lease. */
  ghost predicate TakenUp(db: Db, rid: nat) {
    && rid in db.runs && db.runs[rid].phase == IntentRecorded && db.runs[rid].sessionId in db.sessions
    && db.sessions[db.runs[rid].sessionId].lifecycle in {Ready, Active}
    && db.sessions[db.runs[rid].sessionId].lease.Some?
  }

  /** T1 dispatches a run if and only if every one of its checks holds. */
  lemma T1DispatchesExactly(db: Db, rid: nat, now: int, uploadReady: bool)
    ensures var r := PrepareAction(db, rid, now, uploadReady).1;
            && (r == Refused(NoWork) <==> !TakenUp(db, rid))
            && (r.Dispatched?
                <==> && TakenUp(db, rid)
                     && var run := db.runs[rid];
                        var s := db.sessions[run.sessionId];
                        && now < s.controlExpiresAt && s.holder in {Ai, Owner, Automation} && FencesHold(s, run)
                        && run.action != UNREGISTERED && TargetFits(run.action, run.hasTarget) && run.payloadComplete
                        && LeaseShows(s) && s.originsBound && (run.action == UPLOAD ==> uploadReady))
            && (!r.Dispatched? ==> r.Refused? && PrepareAction(db, rid, now, uploadReady).0 == db)
  {
  }

  /** A refusal names the first check that fails. */
  lemma T1RefusesInOrder(db: Db, rid: nat, now: int, uploadReady: bool)
    requires TakenUp(db, rid)
    ensures var run := db.runs[rid];
            var s := db.sessions[run.sessionId];
            var r := PrepareAction(db, rid, now, uploadReady).1;
            var controlled := now < s.controlExpiresAt && s.holder in {Ai, Owner, Automation};
            var fitting := TargetFits(run.action, run.hasTarget) && run.payloadComplete;
            && (r == Refused(ControlLeaseStale) <==> !controlled)
            && (r == Refused(ActionFenceStale) <==> controlled && !FencesHold(s, run))
            && (r == Refused(Unregistered) <==> controlled && FencesHold(s, run) && run.action == UNREGISTERED)
            && (r == Refused(DescriptorRejected)
                <==> controlled && FencesHold(s, run) && run.action != UNREGISTERED && !fitting)
            && (controlled && FencesHold(s, run) && run.action != UNREGISTERED && fitting
                ==> && (r == Refused(IdentityStale) <==> !LeaseShows(s))
                    && (r == Refused(OriginsRequired) <==> LeaseShows(s) && !s.originsBound)
                    && (r == Refused(UploadExpired)
                        <==> LeaseShows(s) && s.originsBound && run.action == UPLOAD && !uploadReady))
  {
  }

  /** The phases of a log, numbered from one. */
  function Numbered(phases: seq<DispatchPhase>): seq<LogEvent> {
    seq(|phases|, i requires 0 <= i < |phases| => LogEvent(i + 1, phases[i]))
  }

  /**
   An action that may change something outside is committed as POSSIBLE_EFFECT, with the trigger in its log before
   any frame leaves; one of the harmless four as DISPATCH_AUTHORIZED, with its input started last.
  */
  lemma T1MarksPossibleEffect(db: Db, rid: nat, now: int, uploadReady: bool)
    requires PrepareAction(db, rid, now, uploadReady).1.Dispatched?
    ensures var run := db.runs[rid];
            var after := PrepareAction(db, rid, now, uploadReady).0.runs[rid];
            var seen := if run.hasTarget then [COMMAND_ACCEPTED, TARGET_RESOLVED] else [COMMAND_ACCEPTED];
            && |after.attempts| == |run.attempts| + 1
            && (run.action !in HARMLESS
                ==> && after.phase == PossibleEffect
                    && after.attempts[|run.attempts|].log == Numbered(
                      seen + [ACTIONABILITY_PASSED, INPUT_SEQUENCE_STARTED, MUTATION_TRIGGER_POSSIBLY_ISSUED]))
            && (run.action in HARMLESS
                ==> && after.phase == DispatchAuthorized
                    && after.attempts[|run.attempts|].log == Numbered(
                      seen + [ACTIONABILITY_PASSED, INPUT_SEQUENCE_STARTED]))
  {
  }

  /** T1 writes one attempt under the session's next fence, and hands out a frame that shows the lease. */
  lemma T1WritesExactly(db: Db, rid: nat, now: int, uploadReady: bool)
    requires PrepareAction(db, rid, now, uploadReady).1.Dispatched?
    ensures var (next, r) := PrepareAction(db, rid, now, uploadReady);
            var run := db.runs[rid];
            var s := db.sessions[run.sessionId];
            var after := next.runs[rid];
            && |after.attempts| == |run.attempts| + 1
            && next.runs == db.runs[rid := ActionRun(
                 run.sessionId, run.action, run.hasTarget, run.payloadComplete, run.expectedControlEpoch,
                 run.expectedDocumentEpoch, run.expectedObservationRevision, after.phase, run.nextAttempt + 1,
                 run.stateVersion + 1, run.attempts + [after.attempts[|run.attempts|]])]
            && after.attempts[|run.attempts|]
               == Attempt(run.nextAttempt, s.nextActionFence, after.attempts[|run.attempts|].log, false)
            && next.sessions == db.sessions[run.sessionId := Session(
                 s.lifecycle, s.view, s.lease, s.holder, s.controlExpiresAt, s.controlEpoch, s.observationRevision,
                 s.originsBound, s.nextActionFence + 1)]
            && s.lease.Some?
            && r == Dispatched(Intent(rid, run.nextAttempt, H.Action(
                 s.lease.value.identity, H.Lease(s.lease.value.leaseId, s.lease.value.fencingToken, now + 30_000),
                 rid, s.nextActionFence, true)))
  {
  }

  /** T2 commits an attempt if and only if its run is in one of the two open phases and the fence is the attempt's. */
  lemma T2CommitsExactly(db: Db, intent: Intent, observation: bool, freshDocument: nat)
    ensures var (next, r) := CommitAction(db, intent, observation, freshDocument);
            && (r == Done
                <==> && intent.runId in db.runs && intent.frame.Action?
                     && db.runs[intent.runId].sessionId in db.sessions
                     && 1 <= intent.attempt <= |db.runs[intent.runId].attempts|
                     && db.runs[intent.runId].phase in {DispatchAuthorized, PossibleEffect}
                     && db.runs[intent.runId].attempts[intent.attempt - 1].actionFence == intent.frame.actionFence)
            && (r != Done ==> r == Refused(T2Stale) && next == db)
  {
  }

  /** It appends what came back; only an observation was surely not applied, anything else must be reconciled. */
  lemma T2WritesExactly(db: Db, intent: Intent, observation: bool, freshDocument: nat)
    requires CommitAction(db, intent, observation, freshDocument).1 == Done
    ensures var next := CommitAction(db, intent, observation, freshDocument).0;
            var run := db.runs[intent.runId];
            var k := intent.attempt - 1;
            var a := run.attempts[k];
            var n := |a.log|;
            var log := a.log + [LogEvent(n + 1, METHOD_RETURNED)]
                       + if observation then [LogEvent(n + 2, POST_OBSERVATION_CAPTURED)] else [];
            next.runs == db.runs[intent.runId := ActionRun(
              run.sessionId, run.action, run.hasTarget, run.payloadComplete, run.expectedControlEpoch,
              run.expectedDocumentEpoch, run.expectedObservationRevision,
              if run.action == OBSERVE then ConfirmedNotApplied else Reconciling, run.nextAttempt,
              run.stateVersion + 1, run.attempts[k := Attempt(a.number, a.actionFence, log, true)])]
  {
    var a := db.runs[intent.runId].attempts[intent.attempt - 1];
    assert Append(Append(a.log, METHOD_RETURNED), POST_OBSERVATION_CAPTURED)
        == a.log + [LogEvent(|a.log| + 1, METHOD_RETURNED)] + [LogEvent(|a.log| + 2, POST_OBSERVATION_CAPTURED)];
    assert a.log + [LogEvent(|a.log| + 1, METHOD_RETURNED)] + [] == a.log + [LogEvent(|a.log| + 1, METHOD_RETURNED)];
  }

  /** The session moves on with an observation only: one revision, and after a navigation to a new document. */
  lemma T2MovesSessionExactly(db: Db, intent: Intent, observation: bool, freshDocument: nat)
    requires CommitAction(db, intent, observation, freshDocument).1 == Done
    ensures var sessions := CommitAction(db, intent, observation, freshDocument).0.sessions;
            var run := db.runs[intent.runId];
            var s := db.sessions[run.sessionId];
            var shown := intent.frame.identity;
            var moved := shown.(documentId := freshDocument, documentEpoch := shown.documentEpoch + 1);
            && (!observation ==> sessions == db.sessions)
            && (observation && run.action != NAVIGATE
                ==> sessions == db.sessions[run.sessionId := s.(
                      observationRevision := s.observationRevision + 1,
                      view := s.view.(documentEpoch := shown.documentEpoch))])
            && (observation && run.action == NAVIGATE
                ==> sessions == db.sessions[run.sessionId := s.(
                      observationRevision := s.observationRevision + 1,
                      view := s.view.(documentEpoch := shown.documentEpoch + 1),
                      lease := if s.lease.Some? && s.lease.value.leaseId == intent.frame.lease.leaseId
                               then Some(HostLease(s.lease.value.leaseId, s.lease.value.fencingToken, moved))
                               else s.lease)])
  {
  }

  /** A lost answer makes UNKNOWN of a run in an open phase, and leaves everything else alone. */
  lemma FailureMarksUnknownExactly(db: Db, intent: Intent)
    ensures var next := FailAction(db, intent);
            var open := intent.runId in db.runs && db.runs[intent.runId].phase in {DispatchAuthorized, PossibleEffect};
            && (!open ==> next == db)
            && (open
                ==> var run := db.runs[intent.runId];
                    next == Db(db.sessions, db.runs[intent.runId := run.(phase := Unknown,
                                                                         stateVersion := run.stateVersion + 1)]))
  {
  }

  /** The order in which the host reports, first to last, and where each report leads. */
  const REPORTS: seq<(DispatchPhase, Phase)> := [
    (COMMAND_ACCEPTED, IntentRecorded), (TARGET_RESOLVED, TargetResolvedPhase),
    (ACTIONABILITY_PASSED, PreconditionVerified), (INPUT_SEQUENCE_STARTED, DispatchAuthorized),
    (MUTATION_TRIGGER_POSSIBLY_ISSUED, PossibleEffect), (NAVIGATION_OR_REQUEST_OBSERVED, Reconciling),
    (METHOD_RETURNED, Reconciling), (POST_OBSERVATION_CAPTURED, OutcomeObserved)]

  /** Against a last event `m`, report `k` is refused if earlier, a duplicate if equal, and recorded if later. */
  lemma ReportIsRecordedExactly(db: Db, rid: nat, k: nat, m: nat, expected: Option<nat>)
    requires k < |REPORTS| && m < |REPORTS| && rid in db.runs && db.runs[rid].attempts != []
    requires expected.None? || expected.value == db.runs[rid].stateVersion
    requires var log := db.runs[rid].attempts[|db.runs[rid].attempts| - 1].log;
             log != [] && log[|log| - 1].phase == REPORTS[m].0
    ensures var (next, r) := RecordPhase(db, rid, REPORTS[k].0, true, expected);
            var run := db.runs[rid];
            var last := |run.attempts| - 1;
            var a := run.attempts[last];
            && (k < m ==> r == Refused(PhaseNotMonotonic) && next == db)
            && (k == m ==> r == Duplicate && next == db)
            && (k > m
                ==> && r == Done
                    && next == Db(db.sessions, db.runs[rid := run.(
                         phase := REPORTS[k].1, stateVersion := run.stateVersion + 1,
                         attempts := run.attempts[last := a.(
                           log := a.log + [LogEvent(a.log[|a.log| - 1].sequence + 1, REPORTS[k].0)])])]))
  {
  }

  /** Without any event yet, the first report is recorded as number one. */
  lemma FirstReportIsRecorded(db: Db, rid: nat, k: nat, expected: Option<nat>)
    requires k < |REPORTS| && rid in db.runs && db.runs[rid].attempts != []
    requires expected.None? || expected.value == db.runs[rid].stateVersion
    requires db.runs[rid].attempts[|db.runs[rid].attempts| - 1].log == []
    ensures var (next, r) := RecordPhase(db, rid, REPORTS[k].0, true, expected);
            && r == Done && |next.runs[rid].attempts| == |db.runs[rid].attempts|
            && next.runs[rid].phase == REPORTS[k].1
            && next.runs[rid].attempts[|db.runs[rid].attempts| - 1].log == [LogEvent(1, REPORTS[k].0)]
  {
  }

  /** Before that, a report needs its run, the version it expects, evidence and an attempt. */
  lemma ReportIsRefusedInOrder(db: Db, rid: nat, p: DispatchPhase, evidence: bool, expected: Option<nat>)
    ensures var (next, r) := RecordPhase(db, rid, p, evidence, expected);
            var current := rid in db.runs && (expected.None? || expected.value == db.runs[rid].stateVersion);
            && (r == Refused(RunMissing) <==> rid !in db.runs)
            && (r == Refused(VersionConflict) <==> rid in db.runs && !current)
            && (r == Refused(EvidenceRequired) <==> current && !evidence)
            && (r == Refused(NoAttempt) <==> current && evidence && db.runs[rid].attempts == [])
            && (r != Done ==> next == db)
  {
  }

  /**
   A cancel needs a run that is not in POSSIBLE_EFFECT, RECONCILING or UNKNOWN, a completion one already confirmed,
   a resolution its read-back; a failure is always recorded.
  */
  lemma SettleDecidesExactly(db: Db, rid: nat, v: Verdict, expected: Option<nat>)
    ensures var r := Settle(db, rid, v, expected).1;
            var current := rid in db.runs && (expected.None? || expected.value == db.runs[rid].stateVersion);
            && (r == Refused(RunMissing) <==> rid !in db.runs)
            && (r == Refused(VersionConflict) <==> rid in db.runs && !current)
            && (current && v == Cancel
                ==> r == if db.runs[rid].phase in {PossibleEffect, Reconciling, Unknown}
                         then Refused(ReconciliationRequired) else Done)
            && (current && v == Complete
                ==> r == if db.runs[rid].phase == ConfirmedApplied then Done else Refused(PostconditionFailed))
            && (current && v == Fail ==> r == Done)
            && (current && v.Resolve? ==> r == if v.readBack then Done else Refused(ReconciliationRequired))
  {
  }

  /** The phase each verdict records; only an unknown outcome fails the session and takes its control away. */
  lemma SettleWritesExactly(db: Db, rid: nat, v: Verdict, expected: Option<nat>)
    ensures var (next, r) := Settle(db, rid, v, expected);
            && (r != Done ==> next == db)
            && (r == Done
                ==> var run := db.runs[rid];
                    var phase := next.runs[rid].phase;
                    && next.runs == db.runs[rid := run.(phase := phase, stateVersion := run.stateVersion + 1)]
                    && (v == Cancel ==> phase == ConfirmedNotApplied)
                    && (v == Complete ==> phase == ConfirmedApplied)
                    && (v == Fail ==> phase == FailedFinal)
                    && (v.Resolve? ==> phase == if v.outcome in {ConfirmedApplied, ConfirmedNotApplied, Unknown}
                                                then v.outcome else FailedFinal)
                    && next.sessions == if phase == Unknown && run.sessionId in db.sessions
                                        then db.sessions[run.sessionId := db.sessions[run.sessionId].(
                                               lifecycle := Failed, holder := NoHolder)]
                                        else db.sessions)
  {
  }

  /** A reconciliation confirms only what its trusted read-back shows for that kind of action. */
  lemma ReconcileDecidesExactly(db: Db, rid: nat, back: ReadBack, expected: Option<nat>)
    ensures var (next, r) := Reconcile(db, rid, back, expected);
            && (r == Done
                <==> && rid in db.runs && (expected.None? || expected.value == db.runs[rid].stateVersion)
                     && db.runs[rid].phase in {Reconciling, PossibleEffect, OutcomeObserved, Unknown})
            && (r == Refused(RunMissing) <==> rid !in db.runs)
            && (r != Done ==> next == db && (rid in db.runs ==> r == Refused(VersionConflict)))
            && (r == Done
                ==> var run := db.runs[rid];
                    var phase := next.runs[rid].phase;
                    && next == Db(db.sessions, db.runs[rid := run.(phase := phase,
                                                                   stateVersion := run.stateVersion + 1)])
                    && (phase == ConfirmedApplied
                        <==> back.trusted && ((run.action == NAVIGATE && back.urlMatches)
                                              || (run.action == UPLOAD && back.uploadConsumed)
                                              || (run.action == DOWNLOAD && back.downloadVerified)))
                    && (phase == ConfirmedNotApplied
                        <==> back.trusted && (run.action == OBSERVE
                                              || (run.action in {CHALLENGE, DIALOG, PERMISSION}
                                                  && back.challengePending)))
                    && phase in {ConfirmedApplied, ConfirmedNotApplied, Unknown})
  {
  }

  /** A run is started for a session that is not over, under the fences expected, while someone controls it. */
  lemma StartRecordsExactly(
      db: Db, rid: nat, sid: nat, action: ActionName, hasTarget: bool, payloadComplete: bool,
      control: Option<nat>, document: Option<nat>, observation: Option<nat>)
    ensures var (next, r) := Start(db, rid, sid, action, hasTarget, payloadComplete, control, document, observation);
            && (r == Refused(SessionNotReady)
                <==> sid !in db.sessions || db.sessions[sid].lifecycle in {Closed, Failed, Expired})
            && (r == Done
                <==> && sid in db.sessions && db.sessions[sid].lifecycle !in {Closed, Failed, Expired}
                     && var s := db.sessions[sid];
                        && (control.None? || control.value == s.controlEpoch)
                        && (document.None? || document.value == s.view.documentEpoch)
                        && (observation.None? || observation.value == s.observationRevision)
                        && s.holder in {Ai, Owner, Automation} && rid !in db.runs)
            && (r != Done ==> next == db && r.Refused?)
            && (r == Refused(FencingStale)
                <==> && sid in db.sessions && db.sessions[sid].lifecycle !in {Closed, Failed, Expired}
                     && var s := db.sessions[sid];
                        !((control.None? || control.value == s.controlEpoch)
                          && (document.None? || document.value == s.view.documentEpoch)
                          && (observation.None? || observation.value == s.observationRevision)))
            && (r == Refused(ControlHeld)
                ==> sid in db.sessions && db.sessions[sid].holder !in {Ai, Owner, Automation})
            && (r == Refused(VersionConflict) ==> rid in db.runs)
            && (r.Refused? ==> r.error in {SessionNotReady, FencingStale, ControlHeld, VersionConflict})
            && (r == Done
                ==> var s := db.sessions[sid];
                    next == Db(db.sessions, db.runs[rid := ActionRun(
                      sid, action, hasTarget, payloadComplete, s.controlEpoch, s.view.documentEpoch,
                      s.observationRevision, IntentRecorded, 1, 1, [])]))
  {
  }

  // ---------------------------------------------------------------------------
  // The handlers as transactions on the tables
  // ---------------------------------------------------------------------------

  class BrowserActionStore {
    var sessions: map<nat, Session>
    var runs: map<nat, ActionRun>

    ghost function Tables(): Db
      reads this
    {
      Db(sessions, runs)
    }

    method CommitT1(rid: nat, now: int, uploadReady: bool) returns (r: Result)
      modifies this
      ensures (Tables(), r) == PrepareAction(old(Tables()), rid, now, uploadReady)
    {
      if !Waiting(Db(sessions, runs), rid) { return Refused(NoWork); }
      var run := runs[rid];
      var s := sessions[run.sessionId];
      var objection := Objection(s, run, now, uploadReady);
      if objection.Some? { return Refused(objection.value); }
      var possibleEffect := Mutating(run.action);
      var log: seq<LogEvent> := [LogEvent(1, COMMAND_ACCEPTED)];
      if run.hasTarget { log := log + [LogEvent(|log| + 1, TARGET_RESOLVED)]; }
      log := log + [LogEvent(|log| + 1, ACTIONABILITY_PASSED)];
      log := log + [LogEvent(|log| + 1, INPUT_SEQUENCE_STARTED)];
      if possibleEffect { log := log + [LogEvent(|log| + 1, MUTATION_TRIGGER_POSSIBLY_ISSUED)]; }
      assert log == FirstLog(run.hasTarget, possibleEffect);
      r := Dispatched(MakeIntent(s, rid, run, now));
      var attempt := Attempt(run.nextAttempt, s.nextActionFence, log, false);
      sessions := sessions[run.sessionId := s.(nextActionFence := s.nextActionFence + 1)];
      runs := runs[rid := run.(phase := if possibleEffect then PossibleEffect else DispatchAuthorized,
                               nextAttempt := run.nextAttempt + 1, stateVersion := run.stateVersion + 1,
                               attempts := run.attempts + [attempt])];
    }

    method CommitT2(intent: Intent, observation: bool, freshDocument: nat) returns (r: Result)
      modifies this
      ensures (Tables(), r) == CommitAction(old(Tables()), intent, observation, freshDocument)
    {
      if !Committable(Db(sessions, runs), intent) { return Refused(T2Stale); }
      var run := runs[intent.runId];
      var attempt := run.attempts[intent.attempt - 1];
      var log := attempt.log + [LogEvent(|attempt.log| + 1, METHOD_RETURNED)];
      if observation {
        log := log + [LogEvent(|log| + 1, POST_OBSERVATION_CAPTURED)];
        sessions := sessions[run.sessionId := Observed(sessions[run.sessionId], intent, run.action, freshDocument)];
      }
      var k := intent.attempt - 1;
      runs := runs[intent.runId := run.(phase := Outcome(run.action), stateVersion := run.stateVersion + 1,
                                        attempts := run.attempts[k := attempt.(log := log, t2Committed := true)])];
      r := Done;
    }

    method MarkAmbiguous(intent: Intent)
      modifies this
      ensures Tables() == FailAction(old(Tables()), intent)
    {
      if intent.runId in runs && runs[intent.runId].phase in {DispatchAuthorized, PossibleEffect} {
        var run := runs[intent.runId];
        runs := runs[intent.runId := run.(phase := Unknown, stateVersion := run.stateVersion + 1)];
      }
    }

    method RecordDispatchPhase(rid: nat, p: DispatchPhase, evidence: bool, expected: Option<nat>) returns (r: Result)
      modifies this
      ensures (Tables(), r) == RecordPhase(old(Tables()), rid, p, evidence, expected)
    {
      if rid !in runs { return Refused(RunMissing); }
      var run := runs[rid];
      if !Matches(expected, run.stateVersion) { return Refused(VersionConflict); }
      if !evidence { return Refused(EvidenceRequired); }
      if |run.attempts| == 0 { return Refused(NoAttempt); }
      var attempt := run.attempts[|run.attempts| - 1];
      var sequence := 0;
      if |attempt.log| > 0 {
        var last := attempt.log[|attempt.log| - 1];
        if Rank(p) < Rank(last.phase) { return Refused(PhaseNotMonotonic); }
        if last.phase == p { return Duplicate; }
        sequence := last.sequence;
      }
      var log := attempt.log + [LogEvent(sequence + 1, p)];
      runs := runs[rid := run.(phase := PhaseAfter(p), stateVersion := run.stateVersion + 1,
                               attempts := run.attempts[|run.attempts| - 1 := attempt.(log := log)])];
      r := Done;
    }

    method SettleRun(rid: nat, v: Verdict, expected: Option<nat>) returns (r: Result)
      modifies this
      ensures (Tables(), r) == Settle(old(Tables()), rid, v, expected)
    {
      if rid !in runs { return Refused(RunMissing); }
      var current := runs[rid];
      if !Matches(expected, current.stateVersion) { return Refused(VersionConflict); }
      if v.Cancel? && NeedsReconciliation(current.phase) { return Refused(ReconciliationRequired); }
      if v.Complete? && current.phase != ConfirmedApplied { return Refused(PostconditionFailed); }
      if v.Resolve? && !v.readBack { return Refused(ReconciliationRequired); }
      var phase := VerdictPhase(v);
      runs := runs[rid := current.(phase := phase, stateVersion := current.stateVersion + 1)];
      if phase == Unknown && current.sessionId in sessions {
        var s := sessions[current.sessionId];
        sessions := sessions[current.sessionId := s.(lifecycle := Failed, holder := NoHolder)];
      }
      r := Done;
    }
  }
}
