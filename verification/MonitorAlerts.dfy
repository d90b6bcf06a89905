/**
 Operational alert episodes.

 Observations of one alert scope are sequenced by their source, may arrive
 late or twice, and are folded into episodes.  `monitor.alert.open` finds the
 episode to advance with an ORDER BY over status and time.
 */
module MonitorAlerts {
  import opened Options

  /** What the alert fingerprint digests; equal fingerprints mean equal scopes. */
  datatype Scope = Scope(source: nat, alertType: nat, condition: nat)

  datatype Status = OPEN | ACKNOWLEDGED | SUPPRESSED | CLOSED

  /** Times are integer milliseconds. */
  datatype Alert = Alert(
    scope: Scope, status: Status, firstSeen: int, lastSeen: int, occurrences: nat, sequence: nat, digest: nat,
    suppressedUntil: Option<int>, acknowledgedAt: Option<int>, closedAt: Option<int>, createdAt: int, stateVersion: nat)

  datatype Observation = Observation(sequence: nat, observedAt: int, activationEpoch: nat, digest: nat)

  datatype EventType = Opened | Updated | Acknowledged | Suppressed | Closed

  datatype Event = Event(alert: nat, streamSequence: nat, eventType: EventType)

  /** `rows` in creation order, addressed by index; `allocator` holds the last stream sequence per alert. */
  datatype Store = Store(rows: seq<Alert>, allocator: map<nat, nat>, outbox: seq<Event>, clock: int)

  datatype Error = SchemaInvalid | TargetNotFound | VersionRequired | VersionConflict | TerminalImmutable
      | ContractIncomplete

  datatype Result = Applied | Duplicate | Stale | Rejected(error: Error)

  // ---------------------------------------------------------------------------
  // Selecting the episode
  // ---------------------------------------------------------------------------

  /** ORDER BY (status<>'CLOSED') DESC, last_seen_at DESC, created_at DESC. */
  predicate SortsBefore(a: Alert, b: Alert) {
    if (a.status != CLOSED) != (b.status != CLOSED) then a.status != CLOSED
    else if a.lastSeen != b.lastSeen then a.lastSeen > b.lastSeen
    else a.createdAt > b.createdAt
  }

  /** LIMIT 1 over the rows of one scope. */
  predicate IsFirst(rows: seq<Alert>, scope: Scope, n: nat) {
    && n < |rows| && rows[n].scope == scope
    && forall i :: 0 <= i < |rows| && rows[i].scope == scope ==> !SortsBefore(rows[i], rows[n])
  }

  predicate HasScope(rows: seq<Alert>, scope: Scope) {
    exists i :: 0 <= i < |rows| && rows[i].scope == scope
  }

  /** The row the query returns: the scan keeps the best row so far. */
  function Latest(rows: seq<Alert>, scope: Scope): (r: Option<nat>)
    ensures r.Some? ==> r.value < |rows| && rows[r.value].scope == scope
    ensures r.None? <==> !HasScope(rows, scope)
  {
    if rows == [] then None
    else
      var n := |rows| - 1;
      var best := Latest(rows[..n], scope);
      if rows[n].scope != scope then best
      else if best.None? || SortsBefore(rows[n], rows[best.value]) then Some(n)
      else best
  }

  // ---------------------------------------------------------------------------
  // Handlers
  // ---------------------------------------------------------------------------

  datatype Progress = New | Same | Old | Bad

  function AssertObservationProgress(a: Alert, o: Observation): Progress {
    if o.sequence < a.sequence then Old
    else if o.sequence == a.sequence then (if a.digest != o.digest then Bad else Same)
    else if o.observedAt < a.lastSeen then Bad
    else New
  }

  function LastSequence(allocator: map<nat, nat>, parent: nat): nat {
    if parent in allocator then allocator[parent] else 0
  }

  /** Stores the row and appends its outbox event under the next contiguous stream sequence. */
  function Apply(s: Store, id: nat, a: Alert, event: EventType): Store
    requires id <= |s.rows|
  {
    var next := LastSequence(s.allocator, id) + 1;
    Store(if id == |s.rows| then s.rows + [a] else s.rows[id := a],
          s.allocator[id := next], s.outbox + [Event(id, next, event)], s.clock)
  }

  predicate SuppressionExpired(a: Alert, o: Observation) {
    a.status == SUPPRESSED && a.suppressedUntil.Some? && a.suppressedUntil.value <= o.observedAt
  }

  function Observed(a: Alert, o: Observation): Alert {
    var expired := SuppressionExpired(a, o);
    a.(status := if expired then (if a.acknowledgedAt.Some? then ACKNOWLEDGED else OPEN) else a.status,
       lastSeen := o.observedAt, occurrences := a.occurrences + 1, sequence := o.sequence, digest := o.digest,
       suppressedUntil := if expired then None else a.suppressedUntil, stateVersion := a.stateVersion + 1)
  }

  function Episode(scope: Scope, o: Observation, now: int): Alert {
    Alert(scope, OPEN, o.observedAt, o.observedAt, 1, o.sequence, o.digest, None, None, None, now, 1)
  }

  function Open(s: Store, scope: Scope, o: Observation, epoch: nat): (Store, Result) {
    if o.sequence == 0 then (s, Rejected(SchemaInvalid))
    else if o.activationEpoch != epoch then (s, Rejected(ContractIncomplete))
    else
      var latest := Latest(s.rows, scope);
      if latest.None? then (Apply(s, |s.rows|, Episode(scope, o, s.clock), Opened), Applied)
      else
        var a := s.rows[latest.value];
        match AssertObservationProgress(a, o)
        case Old => (s, Stale)
        case Same => (s, Duplicate)
        case Bad => (s, Rejected(ContractIncomplete))
        case New =>
          if a.status != CLOSED then (Apply(s, latest.value, Observed(a, o), Updated), Applied)
          else (Apply(s, |s.rows|, Episode(scope, o, s.clock), Opened), Applied)
  }

  /** `lockAlert`: the row must exist, be at the expected version and not be closed. */
  function LockAlert(s: Store, id: nat, expected: Option<nat>): Option<Error> {
    if id >= |s.rows| then Some(TargetNotFound)
    else if expected.None? then Some(VersionRequired)
    else if s.rows[id].stateVersion != expected.value then Some(VersionConflict)
    else if s.rows[id].status == CLOSED then Some(TerminalImmutable)
    else None
  }

  function Observe(
      s: Store, id: nat, expected: Option<nat>, condition: nat, o: Observation, epoch: nat): (Store, Result) {
    if o.sequence == 0 then (s, Rejected(SchemaInvalid)) else
    var refused := LockAlert(s, id, expected);
    if refused.Some? then (s, Rejected(refused.value))
    else if s.rows[id].scope.condition != condition || o.activationEpoch != epoch then (s, Rejected(ContractIncomplete))
    else
      match AssertObservationProgress(s.rows[id], o)
      case Old => (s, Stale)
      case Same => (s, Duplicate)
      case Bad => (s, Rejected(ContractIncomplete))
      case New => (Apply(s, id, Observed(s.rows[id], o), Updated), Applied)
  }

  function Acknowledge(s: Store, id: nat, expected: Option<nat>): (Store, Result) {
    var refused := LockAlert(s, id, expected);
    if refused.Some? then (s, Rejected(refused.value))
    else
      var a := s.rows[id];
      if a.status == ACKNOWLEDGED then (s, Rejected(TerminalImmutable))
      else (Apply(s, id, a.(status := ACKNOWLEDGED, suppressedUntil := None, acknowledgedAt := Some(s.clock),
                            stateVersion := a.stateVersion + 1), Acknowledged), Applied)
  }

  function Suppress(s: Store, id: nat, expected: Option<nat>, until: int): (Store, Result) {
    var refused := LockAlert(s, id, expected);
    if refused.Some? then (s, Rejected(refused.value))
    else
      var a := s.rows[id];
      if a.status == SUPPRESSED then (s, Rejected(TerminalImmutable))
      else if until <= s.clock then (s, Rejected(ContractIncomplete))
      else (Apply(s, id, a.(status := SUPPRESSED, suppressedUntil := Some(until), stateVersion := a.stateVersion + 1),
         Suppressed), Applied)
  }

  /** A duplicate or stale observation cannot close an episode. */
  function Close(
      s: Store, id: nat, expected: Option<nat>, condition: nat, o: Observation, epoch: nat): (Store, Result) {
    if o.sequence == 0 then (s, Rejected(SchemaInvalid)) else
    var refused := LockAlert(s, id, expected);
    if refused.Some? then (s, Rejected(refused.value))
    else
      var a := s.rows[id];
      if a.scope.condition != condition || o.activationEpoch != epoch || AssertObservationProgress(a, o) != New
      then (s, Rejected(ContractIncomplete))
      else (Apply(s, id, a.(status := CLOSED, lastSeen := o.observedAt, sequence := o.sequence, digest := o.digest,
                            suppressedUntil := None, closedAt := Some(s.clock), stateVersion := a.stateVersion + 1),
                  Closed), Applied)
  }

  datatype Op =
    | OpenOp(scope: Scope, o: Observation, epoch: nat)
    | ObserveOp(id: nat, expected: Option<nat>, condition: nat, o: Observation, epoch: nat)
    | AcknowledgeOp(id: nat, expected: Option<nat>)
    | SuppressOp(id: nat, expected: Option<nat>, until: int)
    | CloseOp(id: nat, expected: Option<nat>, condition: nat, o: Observation, epoch: nat)
    | Wait(duration: nat)

  function Handle(s: Store, op: Op): (Store, Result) {
    match op
    case OpenOp(scope, o, epoch) => Open(s, scope, o, epoch)
    case ObserveOp(id, expected, condition, o, epoch) => Observe(s, id, expected, condition, o, epoch)
    case AcknowledgeOp(id, expected) => Acknowledge(s, id, expected)
    case SuppressOp(id, expected, until) => Suppress(s, id, expected, until)
    case CloseOp(id, expected, condition, o, epoch) => Close(s, id, expected, condition, o, epoch)
    case Wait(d) => (s.(clock := s.clock + d), Applied)
  }

  /** The database clock moves on between commands. */
  function Tick(s: Store): Store { s.(clock := s.clock + 1) }

  function Step(s: Store, op: Op): Store { Handle(Tick(s), op).0 }

  const EMPTY: Store := Store([], map[], [], 0)

  function Run(s: Store, ops: seq<Op>): Store
    decreases |ops|
  {
    if ops == [] then s else Step(Run(s, ops[..|ops| - 1]), ops[|ops| - 1])
  }

  // ---------------------------------------------------------------------------
  // The handlers over the tables
  // ---------------------------------------------------------------------------

  class AlertTables {
    var rows: seq<Alert>
    var allocator: map<nat, nat>
    var outbox: seq<Event>
    var clock: int

    function Contents(): Store
      reads this
    {
      Store(rows, allocator, outbox, clock)
    }

    constructor ()
      ensures Contents() == EMPTY
    {
      rows, allocator, outbox, clock := [], map[], [], 0;
    }

    /** `allocateContiguousSequence`: insert at zero unless present, then increment. */
    method AllocateContiguousSequence(parent: nat) returns (value: nat)
      modifies this`allocator
      ensures value == LastSequence(old(allocator), parent) + 1 && allocator == old(allocator)[parent := value]
    {
      if parent !in allocator { allocator := allocator[parent := 0]; }
      allocator := allocator[parent := allocator[parent] + 1];
      value := allocator[parent];
    }

    method StoreAlert(id: nat, a: Alert, eventType: EventType)
      requires id <= |rows|
      modifies this`rows, this`allocator, this`outbox
      ensures Contents() == Apply(old(Contents()), id, a, eventType)
    {
      rows := if id == |rows| then rows + [a] else rows[id := a];
      var sequence := AllocateContiguousSequence(id);
      outbox := outbox + [Event(id, sequence, eventType)];
    }

    /** One pass over the rows of the scope, keeping the one the ORDER BY puts first. */
    method SelectLatest(scope: Scope) returns (best: Option<nat>)
      ensures best == Latest(rows, scope)
    {
      best := None;
      for i := 0 to |rows|
        invariant best == Latest(rows[..i], scope)
      {
        assert rows[..i + 1][..i] == rows[..i];
        if rows[i].scope == scope && (best.None? || SortsBefore(rows[i], rows[best.value])) {
          best := Some(i);
        }
      }
      assert rows[..|rows|] == rows;
    }

    method OpenAlert(scope: Scope, o: Observation, epoch: nat) returns (result: Result)
      modifies this`rows, this`allocator, this`outbox
      ensures (Contents(), result) == Open(old(Contents()), scope, o, epoch)
      ensures (Contents(), result) == Handle(old(Contents()), OpenOp(scope, o, epoch))
    {
      if o.sequence == 0 { return Rejected(SchemaInvalid); }
      if o.activationEpoch != epoch { return Rejected(ContractIncomplete); }
      var latest := SelectLatest(scope);
      if latest.Some? {
        var a := rows[latest.value];
        match AssertObservationProgress(a, o) {
          case Old => return Stale;
          case Same => return Duplicate;
          case Bad => return Rejected(ContractIncomplete);
          case New =>
        }
        if a.status != CLOSED {
          StoreAlert(latest.value, Observed(a, o), Updated);
          return Applied;
        }
      }
      StoreAlert(|rows|, Episode(scope, o, clock), Opened);
      result := Applied;
    }

    method ObserveAlert(
        id: nat, expected: Option<nat>, condition: nat, o: Observation, epoch: nat) returns (result: Result)
      modifies this`rows, this`allocator, this`outbox
      ensures (Contents(), result) == Observe(old(Contents()), id, expected, condition, o, epoch)
      ensures (Contents(), result) == Handle(old(Contents()), ObserveOp(id, expected, condition, o, epoch))
    {
      if o.sequence == 0 { return Rejected(SchemaInvalid); }
      if id >= |rows| { return Rejected(TargetNotFound); }
      if expected.None? { return Rejected(VersionRequired); }
      var a := rows[id];
      if a.stateVersion != expected.value { return Rejected(VersionConflict); }
      if a.status == CLOSED { return Rejected(TerminalImmutable); }
      if a.scope.condition != condition || o.activationEpoch != epoch { return Rejected(ContractIncomplete); }
      match AssertObservationProgress(a, o) {
        case Old => return Stale;
        case Same => return Duplicate;
        case Bad => return Rejected(ContractIncomplete);
        case New =>
      }
      StoreAlert(id, Observed(a, o), Updated);
      result := Applied;
    }

    method AcknowledgeAlert(id: nat, expected: Option<nat>) returns (result: Result)
      modifies this`rows, this`allocator, this`outbox
      ensures (Contents(), result) == Acknowledge(old(Contents()), id, expected)
      ensures (Contents(), result) == Handle(old(Contents()), AcknowledgeOp(id, expected))
    {
      var refused := LockAlert(Contents(), id, expected);
      if refused.Some? { return Rejected(refused.value); }
      var a := rows[id];
      if a.status == ACKNOWLEDGED { return Rejected(TerminalImmutable); }
      StoreAlert(id, a.(status := ACKNOWLEDGED, suppressedUntil := None, acknowledgedAt := Some(clock),
                        stateVersion := a.stateVersion + 1), Acknowledged);
      result := Applied;
    }

    method SuppressAlert(id: nat, expected: Option<nat>, until: int) returns (result: Result)
      modifies this`rows, this`allocator, this`outbox
      ensures (Contents(), result) == Suppress(old(Contents()), id, expected, until)
      ensures (Contents(), result) == Handle(old(Contents()), SuppressOp(id, expected, until))
    {
      var refused := LockAlert(Contents(), id, expected);
      if refused.Some? { return Rejected(refused.value); }
      var a := rows[id];
      if a.status == SUPPRESSED { return Rejected(TerminalImmutable); }
      if until <= clock { return Rejected(ContractIncomplete); }
      StoreAlert(id, a.(status := SUPPRESSED, suppressedUntil := Some(until), stateVersion := a.stateVersion + 1),
          Suppressed);
      result := Applied;
    }

    method CloseAlert(
        id: nat, expected: Option<nat>, condition: nat, o: Observation, epoch: nat) returns (result: Result)
      modifies this`rows, this`allocator, this`outbox
      ensures (Contents(), result) == Close(old(Contents()), id, expected, condition, o, epoch)
      ensures (Contents(), result) == Handle(old(Contents()), CloseOp(id, expected, condition, o, epoch))
    {
      if o.sequence == 0 { return Rejected(SchemaInvalid); }
      if id >= |rows| { return Rejected(TargetNotFound); }
      if expected.None? { return Rejected(VersionRequired); }
      var a := rows[id];
      if a.stateVersion != expected.value { return Rejected(VersionConflict); }
      if a.status == CLOSED { return Rejected(TerminalImmutable); }
      if a.scope.condition != condition || o.activationEpoch != epoch || AssertObservationProgress(a, o) != New {
        return Rejected(ContractIncomplete);
      }
      StoreAlert(id, a.(status := CLOSED, lastSeen := o.observedAt, sequence := o.sequence, digest := o.digest,
                        suppressedUntil := None, closedAt := Some(clock), stateVersion := a.stateVersion + 1), Closed);
      result := Applied;
    }
  }

  // ---------------------------------------------------------------------------
  // Invariant
  // ---------------------------------------------------------------------------

  /** The stream sequences published for one alert, in order. */
  function Stream(outbox: seq<Event>, id: nat): seq<nat> {
    if outbox == [] then []
    else
      var e := outbox[|outbox| - 1];
      Stream(outbox[..|outbox| - 1], id) + if e.alert == id then [e.streamSequence] else []
  }

  /** How many applied observations other than a close the outbox shows for one alert. */
  function Observations(outbox: seq<Event>, id: nat): nat {
    if outbox == [] then 0
    else
      var e := outbox[|outbox| - 1];
      Observations(outbox[..|outbox| - 1], id)
      + if e.alert == id && (e.eventType == Opened || e.eventType == Updated) then 1 else 0
  }

  function UpTo(n: nat): (r: seq<nat>)
    ensures |r| == n && forall i :: 0 <= i < n ==> r[i] == i + 1
  {
    if n == 0 then [] else UpTo(n - 1) + [n]
  }

  predicate FieldsOk(a: Alert, clock: int) {
    && (a.status == SUPPRESSED <==> a.suppressedUntil.Some?)
    && (a.status == CLOSED <==> a.closedAt.Some?)
    && (a.status == ACKNOWLEDGED ==> a.acknowledgedAt.Some?)
    && a.firstSeen <= a.lastSeen && a.sequence > 0 && a.occurrences > 0 && a.createdAt <= clock && a.stateVersion > 0
  }

  predicate StreamOk(s: Store, id: nat)
    requires id < |s.rows|
  {
    && LastSequence(s.allocator, id) == s.rows[id].stateVersion
    && Stream(s.outbox, id) == UpTo(s.rows[id].stateVersion)
    && Observations(s.outbox, id) == s.rows[id].occurrences
  }

  /** Two episodes of one scope: the older is closed, and everything moves forward. */
  predicate Follows(a: Alert, b: Alert) {
    a.scope == b.scope
    ==> a.status == CLOSED && a.sequence < b.sequence && a.lastSeen <= b.lastSeen && a.createdAt < b.createdAt
  }

  predicate EpisodesOk(rows: seq<Alert>) {
    forall i, j :: 0 <= i < j < |rows| ==> Follows(rows[i], rows[j])
  }

  predicate Consistent(s: Store) {
    && (forall i :: 0 <= i < |s.rows| ==> FieldsOk(s.rows[i], s.clock) && StreamOk(s, i))
    && EpisodesOk(s.rows)
    && (forall i :: i in s.allocator ==> i < |s.rows|)
    && (forall k :: 0 <= k < |s.outbox| ==> s.outbox[k].alert < |s.rows|)
  }

  // ---------------------------------------------------------------------------
  // The query selects the newest episode
  // ---------------------------------------------------------------------------

  predicate IsNewest(rows: seq<Alert>, scope: Scope, n: nat) {
    && n < |rows| && rows[n].scope == scope
    && forall i :: n < i < |rows| ==> rows[i].scope != scope
  }

  lemma FollowerSortsBefore(a: Alert, b: Alert)
    requires Follows(a, b) && a.scope == b.scope
    ensures SortsBefore(b, a)
  {
  }

  lemma FrontKeepsEpisodes(rows: seq<Alert>, n: nat)
    requires EpisodesOk(rows) && n <= |rows|
    ensures EpisodesOk(rows[..n])
  {
    var front := rows[..n];
    forall i, j | 0 <= i < j < n ensures Follows(front[i], front[j]) { assert Follows(rows[i], rows[j]); }
  }

  lemma {:induction false} LatestIsNewest(rows: seq<Alert>, scope: Scope)
    requires EpisodesOk(rows)
    ensures Latest(rows, scope).Some? ==> IsNewest(rows, scope, Latest(rows, scope).value)
    decreases |rows|
  {
    if rows != [] {
      var n := |rows| - 1;
      FrontKeepsEpisodes(rows, n);
      LatestIsNewest(rows[..n], scope);
      var best := Latest(rows[..n], scope);
      if rows[n].scope == scope && best.Some? {
        assert Follows(rows[best.value], rows[n]);
        FollowerSortsBefore(rows[best.value], rows[n]);
        assert Latest(rows, scope) == Some(n);
      }
    }
  }

  /** The ORDER BY, column by column: not closed first, then the later sighting, then the later creation. */
  lemma SortsBeforeExactly(a: Alert, b: Alert)
    ensures SortsBefore(a, b)
            <==> || (a.status != CLOSED && b.status == CLOSED)
                 || ((a.status == CLOSED <==> b.status == CLOSED)
                     && (a.lastSeen > b.lastSeen || (a.lastSeen == b.lastSeen && a.createdAt > b.createdAt)))
  {
  }

  /** On any rows, the pass returns one of the scope before which no other sorts. */
  lemma {:induction false} LatestIsFirst(rows: seq<Alert>, scope: Scope)
    ensures Latest(rows, scope).Some?
            ==> var n := Latest(rows, scope).value;
                && n < |rows| && rows[n].scope == scope
                && forall i :: 0 <= i < |rows| && rows[i].scope == scope ==> !SortsBefore(rows[i], rows[n])
    decreases |rows|
  {
    if rows != [] { LatestIsFirst(rows[..|rows| - 1], scope); }
  }

  lemma NewestIsFirst(rows: seq<Alert>, scope: Scope, n: nat)
    requires EpisodesOk(rows) && IsNewest(rows, scope, n)
    ensures IsFirst(rows, scope, n)
    ensures forall i :: 0 <= i < |rows| && rows[i].scope == scope
                        ==> rows[i].sequence <= rows[n].sequence && rows[i].lastSeen <= rows[n].lastSeen
  {
    forall i | 0 <= i < |rows| && rows[i].scope == scope
      ensures !SortsBefore(rows[i], rows[n]) && rows[i].sequence <= rows[n].sequence
          && rows[i].lastSeen <= rows[n].lastSeen
    {
      if i < n { assert Follows(rows[i], rows[n]); }
    }
  }

  // ---------------------------------------------------------------------------
  // Preservation
  // ---------------------------------------------------------------------------

  lemma {:induction false} NoEvents(outbox: seq<Event>, id: nat)
    requires forall k :: 0 <= k < |outbox| ==> outbox[k].alert != id
    ensures Stream(outbox, id) == [] && Observations(outbox, id) == 0
    decreases |outbox|
  {
    if outbox != [] { NoEvents(outbox[..|outbox| - 1], id); }
  }

  predicate CountsAsObservation(e: EventType) { e == Opened || e == Updated }

  lemma StreamAppend(outbox: seq<Event>, e: Event, id: nat)
    ensures Stream(outbox + [e], id) == Stream(outbox, id) + if e.alert == id then [e.streamSequence] else []
    ensures Observations(outbox + [e], id)
            == Observations(outbox, id) + if e.alert == id && CountsAsObservation(e.eventType) then 1 else 0
  {
    assert (outbox + [e])[..|outbox|] == outbox;
  }

  /** The row `a` continues what is stored under `id`: one version up, one observation more if the event counts. */
  predicate Continues(s: Store, id: nat, a: Alert, event: EventType) {
    && id <= |s.rows|
    && a.stateVersion == (if id < |s.rows| then s.rows[id].stateVersion else 0) + 1
    && a.occurrences == (if id < |s.rows| then s.rows[id].occurrences else 0)
       + (if CountsAsObservation(event) then 1 else 0)
  }

  lemma ApplyKeepsOwnStream(s: Store, id: nat, a: Alert, event: EventType)
    requires Consistent(s) && Continues(s, id, a, event)
    ensures StreamOk(Apply(s, id, a, event), id)
  {
    if id == |s.rows| {
      NoEvents(s.outbox, id);
    } else {
      assert StreamOk(s, id);
    }
    StreamAppend(s.outbox, Event(id, LastSequence(s.allocator, id) + 1, event), id);
  }

  lemma ApplyKeepsOtherStream(s: Store, id: nat, a: Alert, event: EventType, other: nat)
    requires id <= |s.rows| && other < |s.rows| && other != id && StreamOk(s, other)
    ensures StreamOk(Apply(s, id, a, event), other)
  {
    StreamAppend(s.outbox, Event(id, LastSequence(s.allocator, id) + 1, event), other);
  }

  /** An open row may move forward in place. */
  lemma UpdateKeepsEpisodes(rows: seq<Alert>, id: nat, a: Alert)
    requires EpisodesOk(rows) && id < |rows| && rows[id].status != CLOSED
    requires a.scope == rows[id].scope && a.createdAt == rows[id].createdAt
    requires a.sequence >= rows[id].sequence && a.lastSeen >= rows[id].lastSeen
    ensures EpisodesOk(rows[id := a])
  {
    var r := rows[id := a];
    forall i, j | 0 <= i < j < |r| ensures Follows(r[i], r[j]) {
      assert Follows(rows[i], rows[j]);
    }
  }

  lemma AppendKeepsEpisodes(rows: seq<Alert>, a: Alert)
    requires EpisodesOk(rows) && forall i :: 0 <= i < |rows| ==> Follows(rows[i], a)
    ensures EpisodesOk(rows + [a])
  {
    var r := rows + [a];
    forall i, j | 0 <= i < j < |r| ensures Follows(r[i], r[j]) {
      if j < |rows| { assert Follows(rows[i], rows[j]); }
    }
  }

  lemma ApplyKeepsConsistent(s: Store, id: nat, a: Alert, event: EventType)
    requires Consistent(s) && Continues(s, id, a, event) && FieldsOk(a, s.clock)
    requires EpisodesOk(Apply(s, id, a, event).rows)
    ensures Consistent(Apply(s, id, a, event))
  {
    var r := Apply(s, id, a, event);
    forall i | 0 <= i < |r.rows| ensures FieldsOk(r.rows[i], r.clock) && StreamOk(r, i) {
      if i == id {
        ApplyKeepsOwnStream(s, id, a, event);
      } else {
        assert StreamOk(s, i);
        ApplyKeepsOtherStream(s, id, a, event, i);
      }
    }
  }

  /** A change of an open row that keeps its scope and does not move it back. */
  lemma ChangeKeepsConsistent(s: Store, id: nat, a: Alert, event: EventType)
    requires Consistent(s) && id < |s.rows| && s.rows[id].status != CLOSED
    requires Continues(s, id, a, event) && FieldsOk(a, s.clock)
    requires a.scope == s.rows[id].scope && a.createdAt == s.rows[id].createdAt
    requires a.sequence >= s.rows[id].sequence && a.lastSeen >= s.rows[id].lastSeen
    ensures Consistent(Apply(s, id, a, event))
  {
    UpdateKeepsEpisodes(s.rows, id, a);
    ApplyKeepsConsistent(s, id, a, event);
  }

  lemma OpenKeepsConsistent(s: Store, scope: Scope, o: Observation, epoch: nat)
    requires Consistent(s) && forall i :: 0 <= i < |s.rows| ==> s.rows[i].createdAt < s.clock
    ensures Consistent(Open(s, scope, o, epoch).0)
  {
    var latest := Latest(s.rows, scope);
    if o.sequence > 0 && o.activationEpoch == epoch {
      var episode := Episode(scope, o, s.clock);
      if latest.None? {
        AppendKeepsEpisodes(s.rows, episode);
        ApplyKeepsConsistent(s, |s.rows|, episode, Opened);
      } else {
        var a := s.rows[latest.value];
        LatestIsNewest(s.rows, scope);
        NewestIsFirst(s.rows, scope, latest.value);
        if AssertObservationProgress(a, o) == New {
          if a.status != CLOSED {
            ChangeKeepsConsistent(s, latest.value, Observed(a, o), Updated);
          } else {
            forall i | 0 <= i < |s.rows| ensures Follows(s.rows[i], episode) {
              if i < latest.value { assert Follows(s.rows[i], a); }
            }
            AppendKeepsEpisodes(s.rows, episode);
            ApplyKeepsConsistent(s, |s.rows|, episode, Opened);
          }
        }
      }
    }
  }

  lemma LaterIsConsistent(s: Store, clock: int)
    requires Consistent(s) && clock >= s.clock
    ensures Consistent(s.(clock := clock))
    ensures clock > s.clock ==> forall i :: 0 <= i < |s.rows| ==> s.rows[i].createdAt < clock
  {
    var t := s.(clock := clock);
    forall i | 0 <= i < |t.rows| ensures FieldsOk(t.rows[i], t.clock) && StreamOk(t, i) {
      assert StreamOk(s, i);
    }
  }

  lemma ObserveKeepsConsistent(t: Store, id: nat, expected: Option<nat>, condition: nat, o: Observation, epoch: nat)
    requires Consistent(t)
    ensures Consistent(Observe(t, id, expected, condition, o, epoch).0)
  {
    if Observe(t, id, expected, condition, o, epoch).1 == Applied {
      assert FieldsOk(t.rows[id], t.clock);
      ChangeKeepsConsistent(t, id, Observed(t.rows[id], o), Updated);
    }
  }

  lemma AcknowledgeKeepsConsistent(t: Store, id: nat, expected: Option<nat>)
    requires Consistent(t)
    ensures Consistent(Acknowledge(t, id, expected).0)
  {
    var r := Acknowledge(t, id, expected);
    if r.1 == Applied {
      assert FieldsOk(t.rows[id], t.clock);
      ChangeKeepsConsistent(t, id, r.0.rows[id], Acknowledged);
    }
  }

  lemma SuppressKeepsConsistent(t: Store, id: nat, expected: Option<nat>, until: int)
    requires Consistent(t)
    ensures Consistent(Suppress(t, id, expected, until).0)
  {
    var r := Suppress(t, id, expected, until);
    if r.1 == Applied {
      assert FieldsOk(t.rows[id], t.clock);
      ChangeKeepsConsistent(t, id, r.0.rows[id], Suppressed);
    }
  }

  lemma CloseKeepsConsistent(t: Store, id: nat, expected: Option<nat>, condition: nat, o: Observation, epoch: nat)
    requires Consistent(t)
    ensures Consistent(Close(t, id, expected, condition, o, epoch).0)
  {
    var r := Close(t, id, expected, condition, o, epoch);
    if r.1 == Applied {
      assert FieldsOk(t.rows[id], t.clock);
      ChangeKeepsConsistent(t, id, r.0.rows[id], Closed);
    }
  }

  lemma HandleKeepsConsistent(t: Store, op: Op)
    requires Consistent(t) && forall i :: 0 <= i < |t.rows| ==> t.rows[i].createdAt < t.clock
    ensures Consistent(Handle(t, op).0)
  {
    match op
    case OpenOp(scope, o, epoch) => OpenKeepsConsistent(t, scope, o, epoch);
    case ObserveOp(id, expected, condition, o, epoch) => ObserveKeepsConsistent(t, id, expected, condition, o, epoch);
    case AcknowledgeOp(id, expected) => AcknowledgeKeepsConsistent(t, id, expected);
    case SuppressOp(id, expected, until) => SuppressKeepsConsistent(t, id, expected, until);
    case CloseOp(id, expected, condition, o, epoch) => CloseKeepsConsistent(t, id, expected, condition, o, epoch);
    case Wait(d) => LaterIsConsistent(t, t.clock + d);
  }

  lemma StepKeepsConsistent(s: Store, op: Op)
    requires Consistent(s)
    ensures Consistent(Step(s, op))
  {
    LaterIsConsistent(s, s.clock + 1);
    HandleKeepsConsistent(Tick(s), op);
    assert Step(s, op) == Handle(Tick(s), op).0;
  }

  lemma {:induction false} RunIsConsistent(ops: seq<Op>)
    ensures Consistent(Run(EMPTY, ops))
    decreases |ops|
  {
    if ops != [] {
      RunIsConsistent(ops[..|ops| - 1]);
      StepKeepsConsistent(Run(EMPTY, ops[..|ops| - 1]), ops[|ops| - 1]);
    }
  }

  // ---------------------------------------------------------------------------
  // What holds after every run
  // ---------------------------------------------------------------------------

  /** Episodes of one scope, in creation order: the older is closed, its sequence lower, its last sighting no later. */
  lemma EpisodesMoveForward(ops: seq<Op>, i: nat, j: nat)
    requires var rows := Run(EMPTY, ops).rows; i < j < |rows| && rows[i].scope == rows[j].scope
    ensures var rows := Run(EMPTY, ops).rows;
            rows[i].status == CLOSED && rows[i].sequence < rows[j].sequence && rows[i].lastSeen <= rows[j].lastSeen
  {
    RunIsConsistent(ops);
    assert Follows(Run(EMPTY, ops).rows[i], Run(EMPTY, ops).rows[j]);
  }

  /** The ORDER BY never mentions the source sequence, yet it returns the newest episode, which has the highest one. */
  lemma QuerySelectsNewest(ops: seq<Op>, scope: Scope)
    requires HasScope(Run(EMPTY, ops).rows, scope)
    ensures var rows := Run(EMPTY, ops).rows;
            var latest := Latest(rows, scope);
            && latest.Some? && IsFirst(rows, scope, latest.value) && IsNewest(rows, scope, latest.value)
            && forall i :: 0 <= i < |rows| && rows[i].scope == scope ==> rows[i].sequence <= rows[latest.value].sequence
  {
    RunIsConsistent(ops);
    LatestIsNewest(Run(EMPTY, ops).rows, scope);
    NewestIsFirst(Run(EMPTY, ops).rows, scope, Latest(Run(EMPTY, ops).rows, scope).value);
  }

  /** Version, published stream, observation count and suppression of every alert agree. */
  lemma CountersAgree(ops: seq<Op>, id: nat)
    requires id < |Run(EMPTY, ops).rows|
    ensures var s := Run(EMPTY, ops);
            var a := s.rows[id];
            && Stream(s.outbox, id) == UpTo(a.stateVersion)
            && Observations(s.outbox, id) == a.occurrences
            && (a.status == SUPPRESSED <==> a.suppressedUntil.Some?)
            && (a.status == CLOSED <==> a.closedAt.Some?)
  {
    RunIsConsistent(ops);
    assert StreamOk(Run(EMPTY, ops), id) && FieldsOk(Run(EMPTY, ops).rows[id], Run(EMPTY, ops).clock);
  }

  // ---------------------------------------------------------------------------
  // The row guard of the database
  // ---------------------------------------------------------------------------

  predicate TransitionAllowed(from: Status, to: Status) {
    match from
    case OPEN => to == ACKNOWLEDGED || to == SUPPRESSED || to == CLOSED
    case ACKNOWLEDGED => to == SUPPRESSED || to == CLOSED
    case SUPPRESSED => to == OPEN || to == ACKNOWLEDGED || to == CLOSED
    case CLOSED => false
  }

  /** `guard_operational_alert_state_machine`. */
  predicate GuardAccepts(before: Alert, after: Alert) {
    && before.status != CLOSED && after.stateVersion == before.stateVersion + 1
    && (after.status != before.status ==> TransitionAllowed(before.status, after.status))
    && (after.status == before.status ==> after.sequence > before.sequence)
    && (after.status == ACKNOWLEDGED && before.status != ACKNOWLEDGED ==> after.acknowledgedAt.Some?)
  }

  /** The moves of the trigger's own list. */
  const STATUS_MOVES := {
    (OPEN, ACKNOWLEDGED), (OPEN, SUPPRESSED), (OPEN, CLOSED), (ACKNOWLEDGED, SUPPRESSED), (ACKNOWLEDGED, CLOSED),
    (SUPPRESSED, OPEN), (SUPPRESSED, ACKNOWLEDGED), (SUPPRESSED, CLOSED)}

  /** The trigger lets one version pass, along its list or with a newer sequence, and acknowledged with its time. */
  lemma GuardAcceptsExactly(before: Alert, after: Alert)
    ensures GuardAccepts(before, after)
            <==> && before.status != CLOSED && after.stateVersion - before.stateVersion == 1
                 && (if after.status == before.status then after.sequence > before.sequence
                     else (before.status, after.status) in STATUS_MOVES
                          && !(after.status == ACKNOWLEDGED && after.acknowledgedAt == None))
  {
  }

  /** Rows never disappear, never change scope and never move back. */
  predicate Advances(before: seq<Alert>, after: seq<Alert>) {
    && |before| <= |after|
    && forall i :: 0 <= i < |before| ==>
         && after[i].scope == before[i].scope && after[i].sequence >= before[i].sequence
         && after[i].lastSeen >= before[i].lastSeen
         && (after[i] != before[i] ==> GuardAccepts(before[i], after[i]))
  }

  lemma ObservedPassesGuard(a: Alert, o: Observation)
    requires a.status != CLOSED && AssertObservationProgress(a, o) == New
    ensures GuardAccepts(a, Observed(a, o))
  {
  }

  lemma OpenPassesGuard(t: Store, scope: Scope, o: Observation, epoch: nat)
    ensures Advances(t.rows, Open(t, scope, o, epoch).0.rows)
  {
    var latest := Latest(t.rows, scope);
    if latest.Some? {
      var a := t.rows[latest.value];
      if a.status != CLOSED && AssertObservationProgress(a, o) == New { ObservedPassesGuard(a, o); }
    }
  }

  lemma ObservePassesGuard(t: Store, id: nat, expected: Option<nat>, condition: nat, o: Observation, epoch: nat)
    ensures Advances(t.rows, Observe(t, id, expected, condition, o, epoch).0.rows)
  {
    if Observe(t, id, expected, condition, o, epoch).1 == Applied { ObservedPassesGuard(t.rows[id], o); }
  }

  lemma HandlerPassesGuard(t: Store, op: Op)
    ensures Advances(t.rows, Handle(t, op).0.rows)
  {
    match op
    case OpenOp(scope, o, epoch) => OpenPassesGuard(t, scope, o, epoch);
    case ObserveOp(id, expected, condition, o, epoch) => ObservePassesGuard(t, id, expected, condition, o, epoch);
    case _ =>
  }

  /** No command the handlers accept is refused by the row guard or by the unique open episode per scope. */
  lemma StepPassesGuards(s: Store, op: Op)
    requires Consistent(s)
    ensures Advances(s.rows, Step(s, op).rows)
    ensures var rows := Step(s, op).rows;
            forall i, j :: 0 <= i < j < |rows| && rows[i].scope == rows[j].scope ==> rows[i].status == CLOSED
  {
    HandlerPassesGuard(Tick(s), op);
    assert Step(s, op) == Handle(Tick(s), op).0;
    StepKeepsConsistent(s, op);
    OpenIsUnique(Step(s, op).rows);
  }

  lemma OpenIsUnique(rows: seq<Alert>)
    requires EpisodesOk(rows)
    ensures forall i, j :: 0 <= i < j < |rows| && rows[i].scope == rows[j].scope ==> rows[i].status == CLOSED
  {
    forall i, j | 0 <= i < j < |rows| && rows[i].scope == rows[j].scope ensures rows[i].status == CLOSED {
      assert Follows(rows[i], rows[j]);
    }
  }

  // ---------------------------------------------------------------------------
  // Redelivery
  // ---------------------------------------------------------------------------

  /** Some episode of the scope has seen this sequence or a later time: the observation has nothing left to say. */
  predicate Settled(rows: seq<Alert>, scope: Scope, o: Observation) {
    o.sequence == 0 || exists i :: 0 <= i < |rows| && SettledBy(rows[i], scope, o)
  }

  predicate SettledBy(a: Alert, scope: Scope, o: Observation) {
    a.scope == scope && (o.sequence <= a.sequence || o.observedAt < a.lastSeen)
  }

  lemma SettledStays(before: seq<Alert>, after: seq<Alert>, scope: Scope, o: Observation)
    requires Advances(before, after) && Settled(before, scope, o)
    ensures Settled(after, scope, o)
  {
    if o.sequence > 0 {
      var i :| 0 <= i < |before| && SettledBy(before[i], scope, o);
      assert SettledBy(after[i], scope, o);
    }
  }

  /** An `open` observation changes anything exactly when its epoch is current and no episode has settled it. */
  lemma OpenChangesExactly(s: Store, scope: Scope, o: Observation, epoch: nat)
    requires Consistent(s)
    ensures Open(s, scope, o, epoch).0 != s <==> o.activationEpoch == epoch && !Settled(s.rows, scope, o)
    ensures o.activationEpoch == epoch ==> Settled(Open(s, scope, o, epoch).0.rows, scope, o)
  {
    var r := Open(s, scope, o, epoch).0;
    var latest := Latest(s.rows, scope);
    if o.sequence > 0 && o.activationEpoch == epoch {
      if latest.None? {
        assert SettledBy(r.rows[|s.rows|], scope, o);
      } else {
        LatestIsNewest(s.rows, scope);
        NewestIsFirst(s.rows, scope, latest.value);
        var a := s.rows[latest.value];
        if AssertObservationProgress(a, o) == New {
          assert |r.outbox| == |s.outbox| + 1;
          var id := if a.status != CLOSED then latest.value else |s.rows|;
          assert SettledBy(r.rows[id], scope, o);
        } else {
          assert SettledBy(a, scope, o);
        }
      }
    }
  }

  /** The history delivered this observation while its activation epoch was the pinned one. */
  predicate Delivered(ops: seq<Op>, scope: Scope, o: Observation) {
    OpenOp(scope, o, o.activationEpoch) in ops
  }

  lemma {:induction false} DeliveredIsSettled(ops: seq<Op>, scope: Scope, o: Observation)
    requires Delivered(ops, scope, o)
    ensures Settled(Run(EMPTY, ops).rows, scope, o)
    decreases |ops|
  {
    var front, last := ops[..|ops| - 1], ops[|ops| - 1];
    assert ops == front + [last];
    var s := Run(EMPTY, front);
    RunIsConsistent(front);
    assert Run(EMPTY, ops) == Handle(Tick(s), last).0;
    if Delivered(front, scope, o) {
      DeliveredIsSettled(front, scope, o);
      HandlerPassesGuard(Tick(s), last);
      SettledStays(s.rows, Handle(Tick(s), last).0.rows, scope, o);
    } else {
      LaterIsConsistent(s, s.clock + 1);
      OpenChangesExactly(Tick(s), scope, o, o.activationEpoch);
    }
  }

  /** Redelivering any part of a history of `open` observations, in any order and under any epoch, changes no row. */
  lemma {:induction false} RedeliveryChangesNothing(ops: seq<Op>, again: seq<Op>)
    requires forall n :: 0 <= n < |again| ==> again[n].OpenOp? && Delivered(ops, again[n].scope, again[n].o)
    ensures Consistent(Run(Run(EMPTY, ops), again))
    ensures Run(Run(EMPTY, ops), again).rows == Run(EMPTY, ops).rows
    ensures Run(Run(EMPTY, ops), again).outbox == Run(EMPTY, ops).outbox
    decreases |again|
  {
    RunIsConsistent(ops);
    if again != [] {
      var front, last := again[..|again| - 1], again[|again| - 1];
      RedeliveryChangesNothing(ops, front);
      var s := Run(Run(EMPTY, ops), front);
      DeliveredIsSettled(ops, last.scope, last.o);
      LaterIsConsistent(s, s.clock + 1);
      OpenChangesExactly(Tick(s), last.scope, last.o, last.epoch);
      assert Run(Run(EMPTY, ops), again) == Tick(s);
    }
  }

  /** An observation first refused for its activation epoch does change rows once that epoch is current. */
  lemma RefusedEpochMayApplyLater(scope: Scope, o: Observation, epoch: nat)
    requires o.sequence > 0 && epoch != o.activationEpoch
    ensures var s := Run(EMPTY, [OpenOp(scope, o, epoch)]);
            s.rows == [] && |Step(s, OpenOp(scope, o, o.activationEpoch)).rows| == 1
  {
    var ops := [OpenOp(scope, o, epoch)];
    assert ops[..0] == [];
    assert Run(EMPTY, ops) == Step(EMPTY, ops[0]);
  }

  // ---------------------------------------------------------------------------
  // What each command decides and writes
  // ---------------------------------------------------------------------------

  /** One row is written or added, and announced under the next sequence of its own stream. */
  ghost predicate Writes(s: Store, t: Store, id: nat, event: EventType) {
    && id <= |s.rows| && |t.rows| == (if id == |s.rows| then id + 1 else |s.rows|) && t.clock == s.clock
    && (forall i :: 0 <= i < |s.rows| && i != id ==> t.rows[i] == s.rows[i])
    && var next := if id in s.allocator then s.allocator[id] + 1 else 1;
       t.allocator == s.allocator[id := next] && t.outbox == s.outbox + [Event(id, next, event)]
  }

  /**
   What an applied observation leaves of a row: its own time, sequence and digest, and one more occurrence.  A
   suppression outlasts it if and only if it is observed before the end; otherwise the row is as acknowledged as it
   had been, without a suppression time.  Any other row keeps its status.
  */
  ghost predicate Records(a: Alert, b: Alert, o: Observation) {
    && b.lastSeen == o.observedAt && b.sequence == o.sequence && b.digest == o.digest
    && b.occurrences == a.occurrences + 1 && b.stateVersion == a.stateVersion + 1
    && b.scope == a.scope && b.firstSeen == a.firstSeen && b.createdAt == a.createdAt
    && b.acknowledgedAt == a.acknowledgedAt && b.closedAt == a.closedAt
    && (a.status == SUPPRESSED && a.suppressedUntil.Some?
        ==> if o.observedAt < a.suppressedUntil.value
            then b.status == SUPPRESSED && b.suppressedUntil == a.suppressedUntil
            else b.status == (if a.acknowledgedAt.None? then OPEN else ACKNOWLEDGED) && b.suppressedUntil == None)
    && (a.status != SUPPRESSED || a.suppressedUntil.None?
        ==> b.status == a.status && b.suppressedUntil == a.suppressedUntil)
  }

  /** The row of a new episode. */
  ghost predicate Begins(a: Alert, scope: Scope, o: Observation, now: int) {
    && a.scope == scope && a.status == OPEN && a.firstSeen == o.observedAt && a.lastSeen == o.observedAt
    && a.occurrences == 1 && a.sequence == o.sequence && a.digest == o.digest && a.suppressedUntil == None
    && a.acknowledgedAt == None && a.closedAt == None && a.createdAt == now && a.stateVersion == 1
  }

  /** The row a command is meant for: it exists at the expected version and is not closed. */
  ghost predicate Lockable(s: Store, id: nat, expected: Option<nat>) {
    id < |s.rows| && expected == Some(s.rows[id].stateVersion) && s.rows[id].status != CLOSED
  }

  /** Against the newest episode of its scope an observation is stale, a duplicate, a contradiction or news. */
  lemma OpenDecidesExactly(s: Store, scope: Scope, o: Observation, epoch: nat, n: nat)
    requires EpisodesOk(s.rows) && IsNewest(s.rows, scope, n)
    ensures var (t, r) := Open(s, scope, o, epoch);
            var a := s.rows[n];
            var valid := o.sequence > 0 && o.activationEpoch == epoch;
            && (r == Rejected(SchemaInvalid) <==> o.sequence == 0)
            && (r == Stale <==> valid && o.sequence < a.sequence)
            && (r == Duplicate <==> valid && o.sequence == a.sequence && o.digest == a.digest)
            && (r == Applied <==> valid && o.sequence > a.sequence && o.observedAt >= a.lastSeen)
            && (r != Applied ==> t == s && (r == Stale || r == Duplicate || r == Rejected(SchemaInvalid)
                                            || r == Rejected(ContractIncomplete)))
            && (r == Applied && a.status != CLOSED ==> Writes(s, t, n, Updated) && Records(a, t.rows[n], o))
            && (r == Applied && a.status == CLOSED
                ==> Writes(s, t, |s.rows|, Opened) && Begins(t.rows[|s.rows|], scope, o, s.clock))
  {
    LatestIsNewest(s.rows, scope);
    assert HasScope(s.rows, scope);
    var m := Latest(s.rows, scope).value;
    assert m == n;
  }

  /** The first observation of a scope begins an episode. */
  lemma FirstOpenBegins(s: Store, scope: Scope, o: Observation, epoch: nat)
    requires forall i :: 0 <= i < |s.rows| ==> s.rows[i].scope != scope
    ensures var (t, r) := Open(s, scope, o, epoch);
            && (r == Applied <==> o.sequence > 0 && o.activationEpoch == epoch)
            && (r == Applied ==> Writes(s, t, |s.rows|, Opened) && Begins(t.rows[|s.rows|], scope, o, s.clock))
            && (r != Applied
                ==> t == s && r == Rejected(if o.sequence == 0 then SchemaInvalid else ContractIncomplete))
  {
    assert !HasScope(s.rows, scope);
  }

  /** An observation of one alert needs its row, version, condition and epoch, and then counts like an open one. */
  lemma ObserveDecidesExactly(s: Store, id: nat, expected: Option<nat>, condition: nat, o: Observation, epoch: nat)
    ensures var (t, r) := Observe(s, id, expected, condition, o, epoch);
            var locked := o.sequence > 0 && Lockable(s, id, expected);
            var meant := locked && s.rows[id].scope.condition == condition && o.activationEpoch == epoch;
            && (r == Stale <==> meant && o.sequence < s.rows[id].sequence)
            && (r == Duplicate <==> meant && o.sequence == s.rows[id].sequence && o.digest == s.rows[id].digest)
            && (r == Applied
                <==> meant && o.sequence > s.rows[id].sequence && o.observedAt >= s.rows[id].lastSeen)
            && (r == Rejected(ContractIncomplete) <==> locked && r != Stale && r != Duplicate && r != Applied)
            && (r == Rejected(SchemaInvalid) <==> o.sequence == 0)
            && (r != Applied ==> t == s)
            && (r == Applied ==> Writes(s, t, id, Updated) && Records(s.rows[id], t.rows[id], o))
  {
  }

  /** What is missing is named in the order of the checks. */
  lemma LockRefusesInOrder(s: Store, id: nat, expected: Option<nat>)
    requires !Lockable(s, id, expected)
    ensures var r := Acknowledge(s, id, expected).1;
            && r == Rejected(if id >= |s.rows| then TargetNotFound
                             else if expected == None then VersionRequired
                             else if expected != Some(s.rows[id].stateVersion) then VersionConflict
                             else TerminalImmutable)
            && (forall until :: Suppress(s, id, expected, until).1 == r)
            && (forall condition, o: Observation, epoch :: o.sequence > 0
                  ==> && Observe(s, id, expected, condition, o, epoch).1 == r
                      && Close(s, id, expected, condition, o, epoch).1 == r)
  {
  }

  /** An acknowledgement stamps the time and lifts a suppression; an acknowledged row refuses another one. */
  lemma AcknowledgeDecidesExactly(s: Store, id: nat, expected: Option<nat>)
    ensures var (t, r) := Acknowledge(s, id, expected);
            && (r == Applied <==> Lockable(s, id, expected) && s.rows[id].status != ACKNOWLEDGED)
            && (r != Applied ==> t == s && r.Rejected?)
            && (r == Applied
                ==> var a := s.rows[id];
                    && Writes(s, t, id, Acknowledged)
                    && t.rows[id] == Alert(a.scope, ACKNOWLEDGED, a.firstSeen, a.lastSeen, a.occurrences, a.sequence,
                                           a.digest, None, Some(s.clock), a.closedAt, a.createdAt, a.stateVersion + 1))
  {
  }

  /** A suppression needs a time still to come and a row that is not suppressed, and keeps an acknowledgement. */
  lemma SuppressDecidesExactly(s: Store, id: nat, expected: Option<nat>, until: int)
    ensures var (t, r) := Suppress(s, id, expected, until);
            && (r == Applied <==> Lockable(s, id, expected) && s.rows[id].status != SUPPRESSED && until > s.clock)
            && (r == Rejected(ContractIncomplete)
                <==> Lockable(s, id, expected) && s.rows[id].status != SUPPRESSED && until <= s.clock)
            && (r != Applied ==> t == s && r.Rejected?)
            && (r == Applied
                ==> var a := s.rows[id];
                    && Writes(s, t, id, Suppressed)
                    && t.rows[id] == Alert(a.scope, SUPPRESSED, a.firstSeen, a.lastSeen, a.occurrences, a.sequence,
                                           a.digest, Some(until), a.acknowledgedAt, a.closedAt, a.createdAt,
                                           a.stateVersion + 1))
  {
  }

  /** Only news of its own condition and epoch closes an episode; it is not counted as an occurrence. */
  lemma CloseDecidesExactly(s: Store, id: nat, expected: Option<nat>, condition: nat, o: Observation, epoch: nat)
    ensures var (t, r) := Close(s, id, expected, condition, o, epoch);
            var locked := o.sequence > 0 && Lockable(s, id, expected);
            && (r == Applied
                <==> && locked && s.rows[id].scope.condition == condition && o.activationEpoch == epoch
                     && o.sequence > s.rows[id].sequence && o.observedAt >= s.rows[id].lastSeen)
            && (r == Rejected(ContractIncomplete) <==> locked && r != Applied)
            && (r == Rejected(SchemaInvalid) <==> o.sequence == 0)
            && (r != Applied ==> t == s && r.Rejected?)
            && (r == Applied
                ==> var a := s.rows[id];
                    && Writes(s, t, id, Closed)
                    && t.rows[id] == Alert(a.scope, CLOSED, a.firstSeen, o.observedAt, a.occurrences, o.sequence,
                                           o.digest, None, a.acknowledgedAt, Some(s.clock), a.createdAt,
                                           a.stateVersion + 1))
  {
  }
}
