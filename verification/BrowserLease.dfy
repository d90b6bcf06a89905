/**
 Attachment leases of browser sessions.

 Workers compete for sessions through rows of one lease table.  Every
 transaction of the session service is one atomic operation here; lease rows
 are kept in insertion order and a row's id is its position.
 */
module BrowserLease {
  import opened Options
  import opened BrowserSession

  datatype LeaseState = Acquired | Attached | Released | LeaseExpired | LeaseFailed

  datatype LeaseRow = LeaseRow(
    sessionId: nat, fencingToken: nat, state: LeaseState, released: bool, expiresAt: int,
    closeRequest: Option<nat>, closeCommitted: bool)

  datatype Session = Session(lifecycle: Lifecycle, nextLeaseFence: nat, hostLease: Option<nat>, stateVersion: nat)

  datatype Db = Db(sessions: map<nat, Session>, leases: seq<LeaseRow>)

  datatype Outcome =
    | NoWork
    | Intent(leaseId: nat, fencingToken: nat)
    | CloseIntent(leaseId: nat, fencingToken: nat, requestId: nat, sessionVersion: nat)
    | Committed
    | LeaseStale | AttachConflict | CloseStale

  const LEASE_MILLIS := 30_000

  predicate Live(l: LeaseRow) {
    !l.released && (l.state == Acquired || l.state == Attached)
  }

  predicate HasLive(leases: seq<LeaseRow>, sid: nat) {
    exists i :: 0 <= i < |leases| && leases[i].sessionId == sid && Live(leases[i])
  }

  function ExpireRow(l: LeaseRow, now: int): LeaseRow {
    if !l.released && l.expiresAt <= now then l.(state := LeaseExpired, released := true) else l
  }

  function ExpireAll(leases: seq<LeaseRow>, now: int): seq<LeaseRow> {
    seq(|leases|, i requires 0 <= i < |leases| => ExpireRow(leases[i], now))
  }

  predicate AwaitsAttachment(s: Session) {
    s.lifecycle == Creating || s.lifecycle == Recovering
  }

  /**
   `prepare`: expire what is overdue, then acquire a lease for a session that
   waits for one.  The expiry is kept even when nothing is acquired.
   */
  function Prepare(db: Db, sid: nat, now: int, manifestFound: bool): (Db, Outcome) {
    var leases := ExpireAll(db.leases, now);
    var db1 := db.(leases := leases);
    if sid !in db.sessions || !AwaitsAttachment(db.sessions[sid]) || HasLive(leases, sid) || !manifestFound
      then (db1, NoWork)
    else
      var s := db.sessions[sid];
      var row := LeaseRow(sid, s.nextLeaseFence, Acquired, false, now + LEASE_MILLIS, None, false);
      (Db(db.sessions[sid := s.(nextLeaseFence := s.nextLeaseFence + 1, stateVersion := s.stateVersion + 1)],
          leases + [row]),
       Intent(|leases|, s.nextLeaseFence))
  }

  /** `commit`: the host answered, the lease becomes the session's attachment. */
  function Commit(db: Db, leaseId: nat, token: nat, now: int): (Db, Outcome) {
    if leaseId >= |db.leases| then (db, LeaseStale)
    else
      var l := db.leases[leaseId];
      if l.state != Acquired || l.fencingToken != token || l.expiresAt <= now then (db, LeaseStale)
      else if l.sessionId !in db.sessions || !AwaitsAttachment(db.sessions[l.sessionId]) then (db, AttachConflict)
      else
        var s := db.sessions[l.sessionId];
        (Db(db.sessions[l.sessionId :=
            s.(lifecycle := Ready, hostLease := Some(leaseId), stateVersion := s.stateVersion + 1)],
            db.leases[leaseId := l.(state := Attached, expiresAt := now + LEASE_MILLIS)]),
         Committed)
  }

  /** `fail`: the host refused or was lost before the commit. */
  function Fail(db: Db, leaseId: nat): Db {
    if leaseId < |db.leases| && db.leases[leaseId].state == Acquired
    then db.(leases := db.leases[leaseId := db.leases[leaseId].(state := LeaseFailed, released := true)])
    else db
  }

  predicate AttachedTo(db: Db, sid: nat) {
    && sid in db.sessions && db.sessions[sid].hostLease.Some?
    && var id := db.sessions[sid].hostLease.value;
       id < |db.leases| && db.leases[id].state == Attached && !db.leases[id].released
  }

  /** Dispatching an action renews the lease it runs under. */
  function Renew(db: Db, sid: nat, now: int): Db {
    if !AttachedTo(db, sid) then db
    else
      var id := db.sessions[sid].hostLease.value;
      db.(leases := db.leases[id := db.leases[id].(expiresAt := now + LEASE_MILLIS)])
  }

  function PrepareClose(db: Db, sid: nat, now: int, actionsTerminal: bool, freshRequest: nat): (Db, Outcome) {
    if !AttachedTo(db, sid) || db.sessions[sid].lifecycle != Closing || !actionsTerminal then (db, NoWork)
    else
      var id := db.sessions[sid].hostLease.value;
      var l := db.leases[id];
      if l.closeCommitted then (db, CloseStale)
      else
        var request := if l.closeRequest.Some? then l.closeRequest.value else freshRequest;
        (db.(leases := db.leases[id := l.(closeRequest := Some(request), expiresAt := now + LEASE_MILLIS)]),
         CloseIntent(id, l.fencingToken, request, db.sessions[sid].stateVersion))
  }

  function CommitClose(db: Db, sid: nat, leaseId: nat, token: nat, requestId: nat, sessionVersion: nat): (Db, Outcome) {
    if leaseId >= |db.leases| then (db, CloseStale)
    else
      var l := db.leases[leaseId];
      if l.state != Attached || l.fencingToken != token || l.closeRequest != Some(requestId) || l.closeCommitted
        then (db, CloseStale)
      else if sid !in db.sessions || db.sessions[sid].lifecycle != Closing
              || db.sessions[sid].stateVersion != sessionVersion
        then (db, CloseStale)
      else (db.(leases := db.leases[leaseId := l.(state := Released, released := true, closeCommitted := true)]),
         Committed)
  }

  /** A session handler outside the service moves the lifecycle (close, recover, pause, ...). */
  function Transition(db: Db, sid: nat, to: Lifecycle): Db {
    if sid !in db.sessions then db
    else
      var s := db.sessions[sid];
      db.(sessions := db.sessions[sid := s.(lifecycle := to, stateVersion := s.stateVersion + 1)])
  }

  function CreateSession(db: Db, sid: nat): Db {
    if sid in db.sessions then db else db.(sessions := db.sessions[sid := Session(Creating, 1, None, 1)])
  }

  datatype Op =
    | OpCreate(sid: nat)
    | OpPrepare(sid: nat, now: int, manifestFound: bool)
    | OpCommit(leaseId: nat, token: nat, now: int)
    | OpFail(leaseId: nat)
    | OpRenew(sid: nat, now: int)
    | OpPrepareClose(sid: nat, now: int, actionsTerminal: bool, freshRequest: nat)
    | OpCommitClose(sid: nat, leaseId: nat, token: nat, requestId: nat, sessionVersion: nat)
    | OpTransition(sid: nat, to: Lifecycle)

  function Step(db: Db, op: Op): Db {
    match op
    case OpCreate(sid) => CreateSession(db, sid)
    case OpPrepare(sid, now, found) => Prepare(db, sid, now, found).0
    case OpCommit(id, token, now) => Commit(db, id, token, now).0
    case OpFail(id) => Fail(db, id)
    case OpRenew(sid, now) => Renew(db, sid, now)
    case OpPrepareClose(sid, now, terminal, request) => PrepareClose(db, sid, now, terminal, request).0
    case OpCommitClose(sid, id, token, request, version) => CommitClose(db, sid, id, token, request, version).0
    case OpTransition(sid, to) => Transition(db, sid, to)
  }

  function Run(db: Db, ops: seq<Op>): Db
    decreases |ops|
  {
    if ops == [] then db else Run(Step(db, ops[0]), ops[1..])
  }

  const EMPTY_DB := Db(map[], [])

  // ---------------------------------------------------------------------------
  // The service
  // ---------------------------------------------------------------------------

  class BrowserSessionService {
    var sessions: map<nat, Session>
    var leases: seq<LeaseRow>

    ghost function Tables(): Db
      reads this
    {
      Db(sessions, leases)
    }

    method PrepareAttachment(sid: nat, now: int, manifestFound: bool) returns (r: Outcome)
      modifies this
      ensures (Tables(), r) == Prepare(old(Tables()), sid, now, manifestFound)
      ensures Tables() == Step(old(Tables()), OpPrepare(sid, now, manifestFound))
    {
      leases := ExpireAll(leases, now);
      if sid !in sessions || !AwaitsAttachment(sessions[sid]) { return NoWork; }
      var busy := exists i :: 0 <= i < |leases| && leases[i].sessionId == sid && Live(leases[i]);
      if busy || !manifestFound { return NoWork; }
      var token := sessions[sid].nextLeaseFence;
      sessions := sessions[sid :=
          sessions[sid].(nextLeaseFence := token + 1, stateVersion := sessions[sid].stateVersion + 1)];
      r := Intent(|leases|, token);
      leases := leases + [LeaseRow(sid, token, Acquired, false, now + LEASE_MILLIS, None, false)];
    }

    method CommitAttachment(leaseId: nat, token: nat, now: int) returns (r: Outcome)
      modifies this
      ensures (Tables(), r) == Commit(old(Tables()), leaseId, token, now)
      ensures Tables() == Step(old(Tables()), OpCommit(leaseId, token, now))
    {
      if leaseId >= |leases| { return LeaseStale; }
      var lease := leases[leaseId];
      if lease.state != Acquired || lease.fencingToken != token || lease.expiresAt <= now { return LeaseStale; }
      if lease.sessionId !in sessions || !AwaitsAttachment(sessions[lease.sessionId]) { return AttachConflict; }
      var s := sessions[lease.sessionId];
      sessions := sessions[lease.sessionId :=
          s.(lifecycle := Ready, hostLease := Some(leaseId), stateVersion := s.stateVersion + 1)];
      leases := leases[leaseId := lease.(state := Attached, expiresAt := now + LEASE_MILLIS)];
      r := Committed;
    }

    method BeginClose(sid: nat, now: int, actionsTerminal: bool, freshRequest: nat) returns (r: Outcome)
      modifies this
      ensures (Tables(), r) == PrepareClose(old(Tables()), sid, now, actionsTerminal, freshRequest)
      ensures Tables() == Step(old(Tables()), OpPrepareClose(sid, now, actionsTerminal, freshRequest))
    {
      if !AttachedTo(Db(sessions, leases), sid) || sessions[sid].lifecycle != Closing || !actionsTerminal {
        return NoWork;
      }
      var id := sessions[sid].hostLease.value;
      if leases[id].closeCommitted { return CloseStale; }
      var request := if leases[id].closeRequest.Some? then leases[id].closeRequest.value else freshRequest;
      leases := leases[id := leases[id].(closeRequest := Some(request), expiresAt := now + LEASE_MILLIS)];
      r := CloseIntent(id, leases[id].fencingToken, request, sessions[sid].stateVersion);
    }

    method FinishClose(sid: nat, leaseId: nat, token: nat, requestId: nat, sessionVersion: nat) returns (r: Outcome)
      modifies this
      ensures (Tables(), r) == CommitClose(old(Tables()), sid, leaseId, token, requestId, sessionVersion)
      ensures Tables() == Step(old(Tables()), OpCommitClose(sid, leaseId, token, requestId, sessionVersion))
    {
      if leaseId >= |leases| { return CloseStale; }
      var lease := leases[leaseId];
      if lease.state != Attached || lease.fencingToken != token || lease.closeRequest != Some(requestId)
          || lease.closeCommitted {
        return CloseStale;
      }
      if sid !in sessions || sessions[sid].lifecycle != Closing || sessions[sid].stateVersion != sessionVersion {
        return CloseStale;
      }
      leases := leases[leaseId := lease.(state := Released, released := true, closeCommitted := true)];
      r := Committed;
    }
  }

  // ---------------------------------------------------------------------------
  // What each transaction does, row by row
  // ---------------------------------------------------------------------------

  /** A lease still running, or already released, stays as it was; every overdue one expires. */
  lemma PrepareExpiresExactly(db: Db, sid: nat, now: int, manifestFound: bool, i: nat)
    requires i < |db.leases|
    ensures var before, after := db.leases[i], Prepare(db, sid, now, manifestFound).0.leases;
            && |after| >= |db.leases|
            && (before.released || now < before.expiresAt ==> after[i] == before)
            && (!before.released && before.expiresAt <= now
                ==> after[i] == LeaseRow(before.sessionId, before.fencingToken, LeaseExpired, true, before.expiresAt,
                                         before.closeRequest, before.closeCommitted))
  {
  }

  /** No unreleased lease of the session that is acquired or attached is still running. */
  ghost predicate NoneRunning(db: Db, sid: nat, now: int) {
    forall i :: 0 <= i < |db.leases| && db.leases[i].sessionId == sid && !db.leases[i].released
                && (db.leases[i].state == Acquired || db.leases[i].state == Attached)
                ==> db.leases[i].expiresAt <= now
  }

  lemma RunningLeaseBlocks(db: Db, sid: nat, now: int)
    ensures HasLive(ExpireAll(db.leases, now), sid) <==> !NoneRunning(db, sid, now)
  {
    var leases := ExpireAll(db.leases, now);
    if !NoneRunning(db, sid, now) {
      var i :| 0 <= i < |db.leases| && db.leases[i].sessionId == sid && !db.leases[i].released
               && (db.leases[i].state == Acquired || db.leases[i].state == Attached) && db.leases[i].expiresAt > now;
      assert leases[i] == db.leases[i] && Live(leases[i]);
    }
    if HasLive(leases, sid) {
      var i :| 0 <= i < |leases| && leases[i].sessionId == sid && Live(leases[i]);
      assert db.leases[i] == leases[i];
    }
  }

  /**
   A worker gets a lease if and only if the session waits for one, the manifest is found and no lease of it still
   runs.  The lease is the next row, under the session's next token, for half a minute.
  */
  lemma PrepareAcquiresExactly(db: Db, sid: nat, now: int, manifestFound: bool)
    ensures var (next, outcome) := Prepare(db, sid, now, manifestFound);
            && (outcome.Intent?
                <==> && sid in db.sessions
                     && (db.sessions[sid].lifecycle == Creating || db.sessions[sid].lifecycle == Recovering)
                     && manifestFound && NoneRunning(db, sid, now))
            && (!outcome.Intent?
                ==> outcome == NoWork && next.sessions == db.sessions && |next.leases| == |db.leases|)
            && (outcome.Intent?
                ==> var s := db.sessions[sid];
                    && outcome == Intent(|db.leases|, s.nextLeaseFence) && |next.leases| == |db.leases| + 1
                    && next.leases[|db.leases|]
                       == LeaseRow(sid, s.nextLeaseFence, Acquired, false, now + 30_000, None, false)
                    && next.sessions == db.sessions[sid := Session(s.lifecycle, s.nextLeaseFence + 1, s.hostLease,
                                                                   s.stateVersion + 1)])
  {
    RunningLeaseBlocks(db, sid, now);
  }

  /** Only the acquired, current, running lease of a waiting session is attached; nothing else changes. */
  lemma CommitAttachesExactly(db: Db, leaseId: nat, token: nat, now: int)
    ensures var (next, outcome) := Commit(db, leaseId, token, now);
            && (outcome == LeaseStale
                <==> !(&& leaseId < |db.leases| && db.leases[leaseId].state == Acquired
                       && db.leases[leaseId].fencingToken == token && now < db.leases[leaseId].expiresAt))
            && (outcome == Committed
                <==> && leaseId < |db.leases| && db.leases[leaseId].state == Acquired
                     && db.leases[leaseId].fencingToken == token && now < db.leases[leaseId].expiresAt
                     && var sid := db.leases[leaseId].sessionId;
                        && sid in db.sessions
                        && (db.sessions[sid].lifecycle == Creating || db.sessions[sid].lifecycle == Recovering))
            && (outcome != Committed ==> next == db && (outcome == LeaseStale || outcome == AttachConflict))
            && (outcome == Committed
                ==> var l := db.leases[leaseId];
                    var s := db.sessions[l.sessionId];
                    && next.leases == db.leases[leaseId := LeaseRow(l.sessionId, token, Attached, l.released,
                                                                    now + 30_000, l.closeRequest, l.closeCommitted)]
                    && next.sessions == db.sessions[l.sessionId := Session(Ready, s.nextLeaseFence, Some(leaseId),
                                                                           s.stateVersion + 1)])
  {
  }

  /** A refused attachment fails the lease it acquired, and no other. */
  lemma FailReleasesExactly(db: Db, leaseId: nat)
    ensures var next := Fail(db, leaseId);
            && (!(leaseId < |db.leases| && db.leases[leaseId].state == Acquired) ==> next == db)
            && (leaseId < |db.leases| && db.leases[leaseId].state == Acquired
                ==> var l := db.leases[leaseId];
                    next == Db(db.sessions, db.leases[leaseId := LeaseRow(
                      l.sessionId, l.fencingToken, LeaseFailed, true, l.expiresAt, l.closeRequest, l.closeCommitted)]))
  {
  }

  /** The session's own lease is attached and not released. */
  ghost predicate HoldsAttached(db: Db, sid: nat, id: nat) {
    && sid in db.sessions && db.sessions[sid].hostLease == Some(id) && id < |db.leases|
    && db.leases[id].state == Attached && !db.leases[id].released
  }

  /** Renewal moves the end of the session's attached lease, and of no other row. */
  lemma RenewExtendsExactly(db: Db, sid: nat, now: int, id: nat)
    ensures HoldsAttached(db, sid, id)
            ==> var l := db.leases[id];
                Renew(db, sid, now) == Db(db.sessions, db.leases[id := LeaseRow(
                  l.sessionId, l.fencingToken, l.state, l.released, now + 30_000, l.closeRequest, l.closeCommitted)])
    ensures (forall k: nat :: !HoldsAttached(db, sid, k)) ==> Renew(db, sid, now) == db
  {
    if AttachedTo(db, sid) { assert HoldsAttached(db, sid, db.sessions[sid].hostLease.value); }
  }

  /** A close begins for the attached lease of a closing session without open actions, and keeps an earlier request. */
  lemma CloseBeginsExactly(db: Db, sid: nat, now: int, actionsTerminal: bool, freshRequest: nat, id: nat)
    ensures var (next, outcome) := PrepareClose(db, sid, now, actionsTerminal, freshRequest);
            && (outcome.CloseIntent?
                ==> && sid in db.sessions && db.sessions[sid].hostLease == Some(outcome.leaseId)
                    && HoldsAttached(db, sid, outcome.leaseId) && db.sessions[sid].lifecycle == Closing
                    && actionsTerminal && !db.leases[outcome.leaseId].closeCommitted)
            && (!outcome.CloseIntent? ==> next == db && (outcome == NoWork || outcome == CloseStale))
            && (outcome == NoWork
                <==> (forall k: nat :: !HoldsAttached(db, sid, k)) || db.sessions[sid].lifecycle != Closing
                     || !actionsTerminal)
            && (HoldsAttached(db, sid, id) && db.sessions[sid].lifecycle == Closing && actionsTerminal
                ==> var l := db.leases[id];
                    if l.closeCommitted then outcome == CloseStale
                    else var request := if l.closeRequest.Some? then l.closeRequest.value else freshRequest;
                         && outcome == CloseIntent(id, l.fencingToken, request, db.sessions[sid].stateVersion)
                         && next == Db(db.sessions, db.leases[id := LeaseRow(
                              l.sessionId, l.fencingToken, l.state, l.released, now + 30_000, Some(request), false)]))
  {
    if AttachedTo(db, sid) { assert HoldsAttached(db, sid, db.sessions[sid].hostLease.value); }
  }

  /** It ends for that lease, token and request while the session still closes at that version. */
  lemma CloseEndsExactly(db: Db, sid: nat, leaseId: nat, token: nat, requestId: nat, sessionVersion: nat)
    ensures var (next, outcome) := CommitClose(db, sid, leaseId, token, requestId, sessionVersion);
            && (outcome == Committed
                <==> && leaseId < |db.leases| && db.leases[leaseId].state == Attached
                     && db.leases[leaseId].fencingToken == token
                     && db.leases[leaseId].closeRequest == Some(requestId) && !db.leases[leaseId].closeCommitted
                     && sid in db.sessions && db.sessions[sid].lifecycle == Closing
                     && db.sessions[sid].stateVersion == sessionVersion)
            && (outcome != Committed ==> outcome == CloseStale && next == db)
            && (outcome == Committed
                ==> var l := db.leases[leaseId];
                    next == Db(db.sessions, db.leases[leaseId := LeaseRow(
                      l.sessionId, token, Released, true, l.expiresAt, Some(requestId), true)]))
  {
  }

  // ---------------------------------------------------------------------------
  // Safety over every interleaving
  // ---------------------------------------------------------------------------

  /** Only the newest lease of a session may be unreleased, and tokens grow with every new lease. */
  ghost predicate Exclusive(db: Db) {
    && (forall i :: 0 <= i < |db.leases| ==>
          && (db.leases[i].released <==> !(db.leases[i].state == Acquired || db.leases[i].state == Attached))
          && db.leases[i].sessionId in db.sessions
          && db.leases[i].fencingToken < db.sessions[db.leases[i].sessionId].nextLeaseFence)
    && (forall i, j :: 0 <= i < j < |db.leases| && db.leases[i].sessionId == db.leases[j].sessionId ==>
          db.leases[i].released && db.leases[i].fencingToken < db.leases[j].fencingToken)
  }

  /** Changing one row without reviving it and without touching its owner or token keeps exclusivity. */
  lemma UpdateKeepsExclusive(db: Db, sessions: map<nat, Session>, id: nat, row: LeaseRow)
    requires Exclusive(db) && id < |db.leases|
    requires row.sessionId == db.leases[id].sessionId && row.fencingToken == db.leases[id].fencingToken
    requires row.released <==> !(row.state == Acquired || row.state == Attached)
    requires db.leases[id].released ==> row.released
    requires forall s :: s in db.sessions
                         ==> s in sessions && sessions[s].nextLeaseFence == db.sessions[s].nextLeaseFence
    ensures Exclusive(Db(sessions, db.leases[id := row]))
  {
  }

  lemma ExpiryKeepsExclusive(db: Db, now: int)
    requires Exclusive(db)
    ensures Exclusive(db.(leases := ExpireAll(db.leases, now)))
  {
  }

  lemma PrepareKeepsExclusive(db: Db, sid: nat, now: int, manifestFound: bool)
    requires Exclusive(db)
    ensures Exclusive(Prepare(db, sid, now, manifestFound).0)
  {
    ExpiryKeepsExclusive(db, now);
    var before := db.(leases := ExpireAll(db.leases, now));
    var (after, outcome) := Prepare(db, sid, now, manifestFound);
    if outcome.Intent? {
      forall i | 0 <= i < |before.leases| && before.leases[i].sessionId == sid
        ensures before.leases[i].released && before.leases[i].fencingToken < outcome.fencingToken
      {
        assert !Live(before.leases[i]);
      }
      assert after.leases == before.leases + [after.leases[|before.leases|]];
    }
  }

  lemma StepKeepsExclusive(db: Db, op: Op)
    requires Exclusive(db)
    ensures Exclusive(Step(db, op))
  {
    match op
    case OpPrepare(sid, now, found) => PrepareKeepsExclusive(db, sid, now, found);
    case OpCommit(id, token, now) =>
      if Commit(db, id, token, now).1 == Committed {
        UpdateKeepsExclusive(db, Step(db, op).sessions, id, Step(db, op).leases[id]);
      }
    case OpFail(id) => if Step(db, op) != db { UpdateKeepsExclusive(db, db.sessions, id, Step(db, op).leases[id]); }
    case OpRenew(sid, now) =>
      if AttachedTo(db, sid) {
        var id := db.sessions[sid].hostLease.value;
        UpdateKeepsExclusive(db, db.sessions, id, Step(db, op).leases[id]);
      }
    case OpPrepareClose(sid, now, terminal, request) =>
      if PrepareClose(db, sid, now, terminal, request).1.CloseIntent? {
        var id := db.sessions[sid].hostLease.value;
        UpdateKeepsExclusive(db, db.sessions, id, Step(db, op).leases[id]);
      }
    case OpCommitClose(sid, id, token, request, version) =>
      if CommitClose(db, sid, id, token, request, version).1 == Committed {
        UpdateKeepsExclusive(db, db.sessions, id, Step(db, op).leases[id]);
      }
    case OpCreate(_) =>
    case OpTransition(_, _) =>
  }

  lemma {:induction false} RunIsExclusive(db: Db, ops: seq<Op>)
    requires Exclusive(db)
    ensures Exclusive(Run(db, ops))
    decreases |ops|
  {
    if ops != [] {
      StepKeepsExclusive(db, ops[0]);
      RunIsExclusive(Step(db, ops[0]), ops[1..]);
    }
  }

  /** Two workers never hold the same session: over any run at most one lease of it is live. */
  lemma AtMostOneLiveLease(ops: seq<Op>, i: nat, j: nat)
    requires var db := Run(EMPTY_DB, ops);
             i < |db.leases| && j < |db.leases| && db.leases[i].sessionId == db.leases[j].sessionId
             && !db.leases[i].released && db.leases[i].state in {Acquired, Attached}
             && !db.leases[j].released && db.leases[j].state in {Acquired, Attached}
    ensures i == j
  {
    RunIsExclusive(EMPTY_DB, ops);
  }

  /** A new token exceeds every token the session has ever been given, in every reachable state. */
  lemma NewTokenExceedsAllEarlier(ops: seq<Op>, sid: nat, now: int, i: nat)
    requires Prepare(Run(EMPTY_DB, ops), sid, now, true).1.Intent?
    requires i < |Run(EMPTY_DB, ops).leases| && Run(EMPTY_DB, ops).leases[i].sessionId == sid
    ensures Run(EMPTY_DB, ops).leases[i].fencingToken < Prepare(Run(EMPTY_DB, ops), sid, now, true).1.fencingToken
    ensures Prepare(Run(EMPTY_DB, ops), sid, now, true).0.leases[i].released
  {
    RunIsExclusive(EMPTY_DB, ops);
    var before := Run(EMPTY_DB, ops);
    PrepareKeepsExclusive(before, sid, now, true);
    var after := Prepare(before, sid, now, true).0;
    assert after.leases[|before.leases|].sessionId == sid;
  }

  /** Whatever a worker does late with a lease that has a successor, nothing is committed. */
  lemma SupersededCommitsAreRefused(
      ops: seq<Op>, i: nat, j: nat, token: nat, now: int, sid: nat, requestId: nat, version: nat)
    requires var db := Run(EMPTY_DB, ops); i < j < |db.leases| && db.leases[i].sessionId == db.leases[j].sessionId
    ensures var db := Run(EMPTY_DB, ops);
            && Commit(db, i, token, now) == (db, LeaseStale)
            && CommitClose(db, sid, i, token, requestId, version) == (db, CloseStale)
            && Fail(db, i) == db
  {
    RunIsExclusive(EMPTY_DB, ops);
  }

  lemma {:induction false} RowsKeepOwnerAndToken(db: Db, ops: seq<Op>, k: nat)
    requires k < |db.leases|
    ensures k < |Run(db, ops).leases|
    ensures Run(db, ops).leases[k].sessionId == db.leases[k].sessionId
    ensures Run(db, ops).leases[k].fencingToken == db.leases[k].fencingToken
    decreases |ops|
  {
    if ops != [] {
      RowsKeepOwnerAndToken(Step(db, ops[0]), ops[1..], k);
    }
  }

  /** A closed or expired lease is closed for good: no later run revives it. */
  lemma {:induction false} ReleaseIsFinal(db: Db, ops: seq<Op>, k: nat)
    requires Exclusive(db) && k < |db.leases| && db.leases[k].released
    ensures k < |Run(db, ops).leases| && Run(db, ops).leases[k].released
    decreases |ops|
  {
    if ops != [] {
      StepKeepsExclusive(db, ops[0]);
      ReleaseIsFinal(Step(db, ops[0]), ops[1..], k);
    }
  }
}
