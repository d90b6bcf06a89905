/**
 Component lifecycle, heartbeats and the component audit stream.

 Heartbeats and state reports never look at the lifecycle.  That they cannot
 touch a deregistered component follows from what deregistration demanded.
 */
module ComponentLifecycle {
  import opened Bytes
  import opened Options
  import opened Search

  datatype Lifecycle = DRAFT | REVIEW | APPROVED | ACTIVE | SUSPENDED | QUARANTINED | RETIRED | DEREGISTERED

  datatype Operational = UNKNOWN | DISABLED | HEALTHY | DEGRADED | UNHEALTHY | MAINTENANCE | OP_QUARANTINED | OP_RETIRED

  datatype Monitoring = NOT_CONFIGURED | PENDING | MON_HEALTHY | MON_DEGRADED | MON_FAILED

  datatype Recertification = NOT_DUE | DUE | OVERDUE | IN_REVIEW | PASSED | FAILED

  datatype Activation =
    | INACTIVE | READY | READY_FOR_ACTIVATION | ACTIVATED | BLOCKED
    | ENABLE_REQUESTED | DISABLE_REQUESTED | DISABLE_UNCONFIRMED

  /** `routed` is any of the ingress, pulse and egress flags. */
  datatype Component = Component(
    lifecycle: Lifecycle, activation: Activation, enabled: bool, routed: bool,
    revision: Option<nat>, release: Option<nat>, bindingSet: Option<nat>, activationEpoch: nat,
    operational: Operational, monitoring: Monitoring, recertification: Recertification,
    stateVersion: nat, eventSequence: nat)

  datatype Runtime = Runtime(release: nat, bindingSet: nat, generation: nat, activationEpoch: nat,
                             platform: nat, deployment: nat, heartbeatSequence: nat, degraded: bool)

  type Hash = Bytes

  /** Hash of the previous hash, the 8-byte sequence and the payload digest, which have fixed widths. */
  type EventHash = (Hash, nat, Hash) -> Hash

  const ZERO: Hash := Zeros(32)

  datatype EventKey =
    | HeartbeatKey(generation: nat, sequence: nat)
    | StateKey(generation: nat, sequence: nat, name: string)
    | LifecycleKey(operation: nat, to: Lifecycle)

  datatype Event = Event(sequence: nat, key: EventKey, payloadDigest: Hash, previousHash: Hash, eventHash: Hash)

  datatype Stream = Stream(first: nat, last: nat, currentHash: Hash)

  /** One component with its runtimes, admission barrier and audit stream. */
  datatype State = State(component: Component, runtimes: seq<Runtime>, barrierClosed: bool, pendingAdmissions: nat,
                         stream: Stream, events: seq<Event>)

  datatype Error = TargetInvalid | VersionConflict | TerminalImmutable | DigestConflict | StateContract | NotReady
      | ClosureIncomplete | GuardRefused

  datatype Result = Done(state: State) | Rejected(error: Error)

  // ---------------------------------------------------------------------------
  // The audit stream
  // ---------------------------------------------------------------------------

  function Find(events: seq<Event>, key: EventKey): nat {
    FirstIndex(events, (event: Event) => event.key == key)
  }

  datatype Append = Appended(stream: Stream, events: seq<Event>) | Duplicate | Conflict

  /** A known key is a duplicate if its payload digest matches and an error otherwise. */
  function AppendAudit(s: State, key: EventKey, digest: Hash, h: EventHash): Append {
    var i := Find(s.events, key);
    if i < |s.events| then (if s.events[i].payloadDigest == digest then Duplicate else Conflict)
    else
      var sequence := s.stream.last + 1;
      var eventHash := h(s.stream.currentHash, sequence, digest);
      Appended(Stream(if s.stream.first == 0 then sequence else s.stream.first, sequence, eventHash),
               s.events + [Event(sequence, key, digest, s.stream.currentHash, eventHash)])
  }

  predicate ChainOk(s: State, h: EventHash) {
    && s.stream.last == |s.events| && s.stream.first == (if s.events == [] then 0 else 1)
    && s.stream.currentHash == (if s.events == [] then ZERO else s.events[|s.events| - 1].eventHash)
    && (forall i :: 0 <= i < |s.events| ==> EventOk(s.events, i, h))
    && (forall i, j :: 0 <= i < j < |s.events| ==> s.events[i].key != s.events[j].key)
  }

  predicate EventOk(events: seq<Event>, i: nat, h: EventHash)
    requires i < |events|
  {
    var e := events[i];
    && e.sequence == i + 1
    && e.previousHash == (if i == 0 then ZERO else events[i - 1].eventHash)
    && e.eventHash == h(e.previousHash, e.sequence, e.payloadDigest)
  }

  lemma AppendKeepsChain(s: State, key: EventKey, digest: Hash, h: EventHash)
    requires ChainOk(s, h) && AppendAudit(s, key, digest, h).Appended?
    ensures var a := AppendAudit(s, key, digest, h);
            ChainOk(s.(stream := a.stream, events := a.events), h)
  {
    var a := AppendAudit(s, key, digest, h);
    forall i | 0 <= i < |a.events| ensures EventOk(a.events, i, h) {
      if i < |s.events| { assert EventOk(s.events, i, h); }
    }
  }

  // ---------------------------------------------------------------------------
  // The database guards
  // ---------------------------------------------------------------------------

  predicate TransitionAllowed(from: Lifecycle, to: Lifecycle) {
    match from
    case DRAFT => to == REVIEW || to == RETIRED
    case REVIEW => to == DRAFT || to == APPROVED || to == RETIRED
    case APPROVED => to == ACTIVE || to == RETIRED
    case ACTIVE => to == SUSPENDED || to == QUARANTINED || to == RETIRED
    case SUSPENDED => to == ACTIVE || to == QUARANTINED || to == RETIRED
    case QUARANTINED => to == SUSPENDED || to == ACTIVE || to == RETIRED
    case RETIRED => to == DEREGISTERED
    case DEREGISTERED => false
  }

  predicate ActivationAllowed(from: Activation, to: Activation) {
    match from
    case INACTIVE => to == READY
    case READY => to == READY_FOR_ACTIVATION || to == BLOCKED
    case READY_FOR_ACTIVATION => to == ENABLE_REQUESTED || to == BLOCKED
    case ENABLE_REQUESTED => to == ACTIVATED || to == BLOCKED
    case ACTIVATED => to == DISABLE_REQUESTED
    case DISABLE_REQUESTED => to == INACTIVE || to == DISABLE_UNCONFIRMED
    case DISABLE_UNCONFIRMED => to == INACTIVE || to == ACTIVATED || to == BLOCKED
    case BLOCKED => to == INACTIVE || to == READY || to == READY_FOR_ACTIVATION
  }

  /** The authority checks of the table. */
  predicate Checks(c: Component) {
    && (c.lifecycle == ACTIVE ==> c.activation == ACTIVATED && c.revision.Some? && c.release.Some? && c.bindingSet.Some?
                                  && c.activationEpoch > 0 && c.enabled)
    && (c.lifecycle == RETIRED || c.lifecycle == DEREGISTERED ==> c.activation != ACTIVATED && !c.enabled)
    && (c.enabled ==> c.activation == ACTIVATED)
  }

  /** `guard_component_state_machine` and the table checks. */
  predicate GuardAccepts(before: Component, after: Component) {
    && before.lifecycle != DEREGISTERED
    && after.stateVersion == before.stateVersion + 1 && after.eventSequence == before.eventSequence + 1
    && (after.lifecycle != before.lifecycle ==> TransitionAllowed(before.lifecycle, after.lifecycle))
    && (after.activation != before.activation ==> ActivationAllowed(before.activation, after.activation))
    && Checks(after)
  }

  /** An UPDATE of the component row: the caller's new values plus the two counters, if the guard agrees. */
  function Update(s: State, c: Component): Result {
    var after := c.(stateVersion := s.component.stateVersion + 1, eventSequence := s.component.eventSequence + 1);
    if GuardAccepts(s.component, after) then Done(s.(component := after)) else Rejected(GuardRefused)
  }

  // ---------------------------------------------------------------------------
  // Heartbeats and state reports
  // ---------------------------------------------------------------------------

  datatype Heartbeat = Heartbeat(
    runtime: nat, codeMatches: bool, release: nat, bindingSet: nat, generation: nat, activationEpoch: nat,
    sequence: nat, operational: Operational, ready: bool, digest: Hash)

  predicate LineageCurrent(s: State, b: Heartbeat, platform: nat, deployment: nat) {
    && b.runtime < |s.runtimes|
    && s.component.release == Some(b.release) && s.component.bindingSet == Some(b.bindingSet)
    && s.component.activationEpoch == b.activationEpoch
    && var r := s.runtimes[b.runtime];
       && r.release == b.release && r.bindingSet == b.bindingSet && r.generation == b.generation
       && r.activationEpoch == b.activationEpoch && r.platform == platform && r.deployment == deployment
  }

  function Beat(s: State, b: Heartbeat, platform: nat, deployment: nat, h: EventHash): Result {
    if !b.codeMatches || b.sequence == 0 then Rejected(TargetInvalid)
    else
      match AppendAudit(s, HeartbeatKey(b.generation, b.sequence), b.digest, h)
      case Conflict => Rejected(DigestConflict)
      case Duplicate => Done(s)
      case Appended(stream, events) =>
        var t := s.(stream := stream, events := events);
        if !LineageCurrent(s, b, platform, deployment) || b.sequence <= s.runtimes[b.runtime].heartbeatSequence
          then Done(t)
        else
          var r := s.runtimes[b.runtime];
          var seen := r.(heartbeatSequence := b.sequence, degraded := r.degraded || !b.ready);
          var u := t.(runtimes := t.runtimes[b.runtime := seen]);
          if s.component.operational == b.operational then Done(u)
          else Update(u, u.component.(operational := b.operational, monitoring := MonitoringOf(b.ready)))
  }

  datatype Projection = ToOperational(o: Operational) | ToMonitoring(m: Monitoring)
      | ToRecertification(r: Recertification) | NoProjection

  /** `contractHolds`: an active contract exists and both digests and the bounded schema agree with it. */
  datatype Observation = Observation(
    runtime: nat, contractHolds: bool, name: string, release: nat, bindingSet: nat, generation: nat,
    activationEpoch: nat, sequence: nat, projection: Projection, digest: Hash)

  predicate ObservationCurrent(s: State, o: Observation) {
    && o.runtime < |s.runtimes|
    && s.component.release == Some(o.release) && s.component.bindingSet == Some(o.bindingSet)
    && s.component.activationEpoch == o.activationEpoch
    && var r := s.runtimes[o.runtime];
       r.release == o.release && r.generation == o.generation && r.activationEpoch == o.activationEpoch
  }

  function Project(c: Component, p: Projection): Component {
    match p
    case ToOperational(o) => c.(operational := o)
    case ToMonitoring(m) => c.(monitoring := m)
    case ToRecertification(r) => c.(recertification := r)
    case NoProjection => c
  }

  function Report(s: State, o: Observation, h: EventHash): Result {
    if !o.contractHolds then Rejected(StateContract)
    else
      match AppendAudit(s, StateKey(o.generation, o.sequence, o.name), o.digest, h)
      case Conflict => Rejected(DigestConflict)
      case Duplicate => Done(s)
      case Appended(stream, events) =>
        var t := s.(stream := stream, events := events);
        if ObservationCurrent(s, o) && Project(s.component, o.projection) != s.component
        then Update(t, Project(t.component, o.projection))
        else Done(t)
  }

  /** One report carries several observations; an error in any of them undoes all. */
  function Reports(s: State, os: seq<Observation>, h: EventHash): Result
    decreases |os|
  {
    if os == [] then Done(s)
    else
      var before := Reports(s, os[..|os| - 1], h);
      if before.Rejected? then before else Report(before.state, os[|os| - 1], h)
  }

  // ---------------------------------------------------------------------------
  // Lifecycle commands
  // ---------------------------------------------------------------------------

  function LockComponent(s: State, expected: Option<nat>): Option<Error> {
    if expected.None? || expected.value != s.component.stateVersion then Some(VersionConflict)
    else if s.component.lifecycle == DEREGISTERED then Some(TerminalImmutable)
    else None
  }

  /** Appends the audit event, duplicate or not, and updates the row. */
  function Transition(s: State, c: Component, operation: nat, digest: Hash, h: EventHash): Result {
    match AppendAudit(s, LifecycleKey(operation, c.lifecycle), digest, h)
    case Conflict => Rejected(DigestConflict)
    case Duplicate => Update(s, c)
    case Appended(stream, events) => Update(s.(stream := stream, events := events), c)
  }

  datatype Command =
    | Suspend | Quarantine | RestoreSuspended | RestoreActive(ready: bool) | Recertify(ready: bool)
    | Deregister(inventoryClear: bool) | PublishRevision(manifestEmpty: bool)

  predicate PointersCleared(c: Component) {
    && c.revision.None? && c.release.None? && c.bindingSet.None? && c.activationEpoch == 0
    && c.activation != ACTIVATED && !c.enabled && !c.routed
  }

  function Barrier(s: State, closed: bool): State { s.(barrierClosed := closed) }

  function Execute(
      s: State, command: Command, expected: Option<nat>, operation: nat, digest: Hash, h: EventHash): Result {
    var refused := LockComponent(s, expected);
    if refused.Some? then Rejected(refused.value)
    else
      var c := s.component;
      match command
      case Suspend =>
        if c.lifecycle != ACTIVE then Rejected(StateContract)
        else Transition(Barrier(s, true), c.(lifecycle := SUSPENDED, operational := MAINTENANCE), operation, digest, h)
      case Quarantine =>
        if c.lifecycle != ACTIVE && c.lifecycle != SUSPENDED then Rejected(StateContract)
        else Transition(Barrier(s, true),
           c.(lifecycle := QUARANTINED, operational := OP_QUARANTINED, recertification := DUE), operation, digest, h)
      case RestoreSuspended =>
        if c.lifecycle != QUARANTINED then Rejected(StateContract)
        else Transition(Barrier(s, true), c.(lifecycle := SUSPENDED, operational := MAINTENANCE), operation, digest, h)
      case RestoreActive(ready) =>
        if c.lifecycle != SUSPENDED then Rejected(StateContract)
        else if c.activation != ACTIVATED || !c.enabled || !ready then Rejected(NotReady)
        else Transition(Barrier(s, false), c.(lifecycle := ACTIVE, operational := HEALTHY), operation, digest, h)
      case Recertify(ready) =>
        if c.lifecycle != QUARANTINED then Rejected(StateContract)
        else if c.activation != ACTIVATED || !c.enabled || !ready then Rejected(NotReady)
        else Transition(Barrier(s, false), c.(lifecycle := ACTIVE, operational := HEALTHY, recertification := PASSED),
           operation, digest, h)
      case Deregister(inventoryClear) =>
        if c.lifecycle != RETIRED then Rejected(StateContract)
        else if !PointersCleared(c) || !inventoryClear || s.pendingAdmissions > 0 then Rejected(ClosureIncomplete)
        else Transition(Barrier(s, true), c.(lifecycle := DEREGISTERED), operation, digest, h)
      case PublishRevision(manifestEmpty) =>
        if c.lifecycle != DRAFT && c.lifecycle != REVIEW then Rejected(StateContract)
        else if manifestEmpty then Rejected(StateContract)
        else Update(s, c.(lifecycle := DRAFT))
  }

  // ---------------------------------------------------------------------------
  // Runs
  // ---------------------------------------------------------------------------

  /** `Elsewhere` is any other writer: the guards bind it, and without closure evidence it cannot deregister. */
  datatype Op =
    | BeatOp(b: Heartbeat, platform: nat, deployment: nat)
    | ReportOp(os: seq<Observation>)
    | CommandOp(command: Command, expected: Option<nat>, operation: nat, digest: Hash)
    | Elsewhere(component: Component, runtimes: seq<Runtime>, barrierClosed: bool, pendingAdmissions: nat)

  function Handle(s: State, op: Op, h: EventHash): Result {
    match op
    case BeatOp(b, platform, deployment) => Beat(s, b, platform, deployment, h)
    case ReportOp(os) => Reports(s, os, h)
    case CommandOp(command, expected, operation, digest) => Execute(s, command, expected, operation, digest, h)
    case Elsewhere(c, runtimes, barrierClosed, pending) =>
      var t := s.(runtimes := runtimes, barrierClosed := barrierClosed, pendingAdmissions := pending);
      if c == s.component then Done(t)
      else if c.lifecycle == DEREGISTERED || !GuardAccepts(s.component, c) then Rejected(GuardRefused)
      else Done(t.(component := c))
  }

  function Step(s: State, op: Op, h: EventHash): State {
    var r := Handle(s, op, h);
    if r.Done? then r.state else s
  }

  function Registered(): State {
    State(Component(DRAFT, INACTIVE, false, false, None, None, None, 0, UNKNOWN, NOT_CONFIGURED, NOT_DUE, 1, 0),
          [], false, 0, Stream(0, 0, ZERO), [])
  }

  function Run(s: State, ops: seq<Op>, h: EventHash): State
    decreases |ops|
  {
    if ops == [] then s else Step(Run(s, ops[..|ops| - 1], h), ops[|ops| - 1], h)
  }

  // ---------------------------------------------------------------------------
  // The handlers over the tables
  // ---------------------------------------------------------------------------

  class ComponentTables {
    var component: Component
    var runtimes: seq<Runtime>
    var barrierClosed: bool
    var pendingAdmissions: nat
    var stream: Stream
    var events: seq<Event>

    function Contents(): State
      reads this
    {
      State(component, runtimes, barrierClosed, pendingAdmissions, stream, events)
    }

    constructor (s: State)
      ensures Contents() == s
    {
      component, runtimes, barrierClosed, pendingAdmissions := s.component, s.runtimes, s.barrierClosed,
          s.pendingAdmissions;
      stream, events := s.stream, s.events;
    }

    /** `appendComponentAuditEvent`: a new event extends the stream, a known one changes nothing. */
    method AppendComponentAuditEvent(
        key: EventKey, digest: Hash, h: EventHash) returns (duplicate: bool, conflict: bool)
      modifies this`stream, this`events
      ensures match AppendAudit(old(Contents()), key, digest, h)
              case Conflict => conflict && Contents() == old(Contents())
              case Duplicate => duplicate && !conflict && Contents() == old(Contents())
              case Appended(st, es) => !duplicate && !conflict && stream == st && events == es
    {
      var i := Find(events, key);
      if i < |events| {
        return true, events[i].payloadDigest != digest;
      }
      var sequence := stream.last + 1;
      var previousHash := stream.currentHash;
      var eventHash := h(previousHash, sequence, digest);
      events := events + [Event(sequence, key, digest, previousHash, eventHash)];
      stream := Stream(if stream.first == 0 then sequence else stream.first, sequence, eventHash);
      duplicate, conflict := false, false;
    }

    /** One UPDATE of the component row under the table's guard. */
    method UpdateComponent(c: Component) returns (ok: bool)
      modifies this`component
      ensures var r := Update(old(Contents()), c);
              if r.Done? then ok && Contents() == r.state else !ok && Contents() == old(Contents())
    {
      var after := c.(stateVersion := component.stateVersion + 1, eventSequence := component.eventSequence + 1);
      ok := GuardAccepts(component, after);
      if ok { component := after; }
    }

    method Rollback(s: State)
      modifies this
      ensures Contents() == s
    {
      component, runtimes, barrierClosed, pendingAdmissions := s.component, s.runtimes, s.barrierClosed,
          s.pendingAdmissions;
      stream, events := s.stream, s.events;
    }

    /** `component.heartbeat`. */
    method AcceptHeartbeat(b: Heartbeat, platform: nat, deployment: nat, h: EventHash) returns (ok: bool)
      modifies this
      ensures ok == Beat(old(Contents()), b, platform, deployment, h).Done?
      ensures Contents() == Step(old(Contents()), BeatOp(b, platform, deployment), h)
    {
      if !b.codeMatches || b.sequence == 0 { return false; }
      var before := Contents();
      var current := LineageCurrent(before, b, platform, deployment);
      var duplicate, conflict := AppendComponentAuditEvent(HeartbeatKey(b.generation, b.sequence), b.digest, h);
      if conflict { return false; }
      if duplicate || !current || b.sequence <= runtimes[b.runtime].heartbeatSequence { return true; }
      var r := runtimes[b.runtime];
      runtimes := runtimes[b.runtime := r.(heartbeatSequence := b.sequence, degraded := r.degraded || !b.ready)];
      ok := true;
      if component.operational != b.operational {
        ok := UpdateComponent(component.(operational := b.operational, monitoring := MonitoringOf(b.ready)));
        if !ok { Rollback(before); }
      }
    }

    /** One observation of a `component.state.report`. */
    method AcceptObservation(o: Observation, h: EventHash) returns (ok: bool)
      modifies this
      ensures var r := Report(old(Contents()), o, h);
              ok == r.Done? && (ok ==> Contents() == r.state)
    {
      if !o.contractHolds { return false; }
      var current := ObservationCurrent(Contents(), o);
      var duplicate, conflict := AppendComponentAuditEvent(StateKey(o.generation, o.sequence, o.name), o.digest, h);
      if conflict { return false; }
      ok := true;
      if current && !duplicate && Project(component, o.projection) != component {
        ok := UpdateComponent(Project(component, o.projection));
      }
    }

    /** `component.state.report`: the observations in order, all or none. */
    method AcceptReport(os: seq<Observation>, h: EventHash) returns (ok: bool)
      modifies this
      ensures ok == Reports(old(Contents()), os, h).Done?
      ensures Contents() == Step(old(Contents()), ReportOp(os), h)
    {
      var before := Contents();
      for i := 0 to |os|
        invariant Reports(before, os[..i], h) == Done(Contents())
      {
        ghost var middle := Contents();
        var accepted := AcceptObservation(os[i], h);
        assert os[..i + 1][..i] == os[..i];
        assert Reports(before, os[..i + 1], h) == Report(middle, os[i], h);
        if !accepted {
          ReportErrorsStick(before, os, i + 1, h);
          Rollback(before);
          return false;
        }
      }
      assert os[..|os|] == os;
      ok := true;
    }
  }

  lemma {:induction false} ReportErrorsStick(s: State, os: seq<Observation>, k: nat, h: EventHash)
    requires k <= |os| && Reports(s, os[..k], h).Rejected?
    ensures Reports(s, os, h).Rejected?
    decreases |os|
  {
    if k < |os| {
      assert os[..|os| - 1][..k] == os[..k];
      ReportErrorsStick(s, os[..|os| - 1], k, h);
    } else {
      assert os[..k] == os;
    }
  }

  // ---------------------------------------------------------------------------
  // Invariants
  // ---------------------------------------------------------------------------

  /** What the closure predicate demanded is still true. */
  predicate ClosedForGood(s: State) {
    s.component.lifecycle == DEREGISTERED ==> PointersCleared(s.component)
  }

  predicate Consistent(s: State, h: EventHash) {
    ChainOk(s, h) && ClosedForGood(s) && Checks(s.component)
  }

  lemma TransitionKeepsConsistent(s: State, c: Component, operation: nat, digest: Hash, h: EventHash)
    requires Consistent(s, h) && (c.lifecycle == DEREGISTERED ==> PointersCleared(c))
    ensures Transition(s, c, operation, digest, h).Done? ==> Consistent(Transition(s, c, operation, digest, h).state, h)
  {
    if AppendAudit(s, LifecycleKey(operation, c.lifecycle), digest, h).Appended? {
      AppendKeepsChain(s, LifecycleKey(operation, c.lifecycle), digest, h);
    }
  }

  lemma BeatKeepsConsistent(s: State, b: Heartbeat, platform: nat, deployment: nat, h: EventHash)
    requires Consistent(s, h)
    ensures Beat(s, b, platform, deployment, h).Done? ==> Consistent(Beat(s, b, platform, deployment, h).state, h)
  {
    if AppendAudit(s, HeartbeatKey(b.generation, b.sequence), b.digest, h).Appended? {
      AppendKeepsChain(s, HeartbeatKey(b.generation, b.sequence), b.digest, h);
    }
  }

  lemma ReportKeepsConsistent(s: State, o: Observation, h: EventHash)
    requires Consistent(s, h)
    ensures Report(s, o, h).Done? ==> Consistent(Report(s, o, h).state, h)
  {
    if AppendAudit(s, StateKey(o.generation, o.sequence, o.name), o.digest, h).Appended? {
      AppendKeepsChain(s, StateKey(o.generation, o.sequence, o.name), o.digest, h);
    }
  }

  lemma {:induction false} ReportsKeepConsistent(s: State, os: seq<Observation>, h: EventHash)
    requires Consistent(s, h)
    ensures Reports(s, os, h).Done? ==> Consistent(Reports(s, os, h).state, h)
    decreases |os|
  {
    if os != [] {
      ReportsKeepConsistent(s, os[..|os| - 1], h);
      var before := Reports(s, os[..|os| - 1], h);
      if before.Done? { ReportKeepsConsistent(before.state, os[|os| - 1], h); }
    }
  }

  lemma ExecuteKeepsConsistent(
      s: State, command: Command, expected: Option<nat>, operation: nat, digest: Hash, h: EventHash)
    requires Consistent(s, h)
    ensures var r := Execute(s, command, expected, operation, digest, h); r.Done? ==> Consistent(r.state, h)
  {
    var c := s.component;
    if LockComponent(s, expected).None? {
      var closed, openGate := Barrier(s, true), Barrier(s, false);
      match command
      case Suspend =>
        TransitionKeepsConsistent(closed, c.(lifecycle := SUSPENDED, operational := MAINTENANCE), operation, digest, h);
      case Quarantine =>
        TransitionKeepsConsistent(closed,
            c.(lifecycle := QUARANTINED, operational := OP_QUARANTINED, recertification := DUE), operation, digest, h);
      case RestoreSuspended =>
        TransitionKeepsConsistent(closed, c.(lifecycle := SUSPENDED, operational := MAINTENANCE), operation, digest, h);
      case RestoreActive(_) =>
        TransitionKeepsConsistent(openGate, c.(lifecycle := ACTIVE, operational := HEALTHY), operation, digest, h);
      case Recertify(_) =>
        TransitionKeepsConsistent(openGate, c.(lifecycle := ACTIVE, operational := HEALTHY, recertification := PASSED),
            operation, digest, h);
      case Deregister(_) =>
        if PointersCleared(c) {
          TransitionKeepsConsistent(closed, c.(lifecycle := DEREGISTERED), operation, digest, h);
        }
      case PublishRevision(_) =>
    }
  }

  lemma HandleKeepsConsistent(s: State, op: Op, h: EventHash)
    requires Consistent(s, h)
    ensures Handle(s, op, h).Done? ==> Consistent(Handle(s, op, h).state, h)
  {
    match op
    case BeatOp(b, platform, deployment) => BeatKeepsConsistent(s, b, platform, deployment, h);
    case ReportOp(os) => ReportsKeepConsistent(s, os, h);
    case CommandOp(command, expected, operation, digest) =>
      ExecuteKeepsConsistent(s, command, expected, operation, digest, h);
    case Elsewhere(_, _, _, _) =>
  }

  lemma {:induction false} RunIsConsistent(ops: seq<Op>, h: EventHash)
    ensures Consistent(Run(Registered(), ops, h), h)
    decreases |ops|
  {
    if ops != [] {
      RunIsConsistent(ops[..|ops| - 1], h);
      HandleKeepsConsistent(Run(Registered(), ops[..|ops| - 1], h), ops[|ops| - 1], h);
    }
  }

  lemma ChainMeans(s: State, h: EventHash, i: nat)
    requires ChainOk(s, h) && i < |s.events|
    ensures var e := s.events[i];
            && e.sequence == i + 1 && e.previousHash == (if i == 0 then ZERO else s.events[i - 1].eventHash)
            && e.eventHash == h(e.previousHash, e.sequence, e.payloadDigest)
  {
    assert EventOk(s.events, i, h);
  }

  lemma ChainHead(s: State, h: EventHash)
    requires ChainOk(s, h)
    ensures var n := |s.events|;
            && s.stream.first == (if n == 0 then 0 else 1) && s.stream.last == n
            && s.stream.currentHash == (if n == 0 then ZERO else s.events[n - 1].eventHash)
  {
  }

  /**
   After any run the audit stream is a hash chain: numbered from one without gaps, each event linked to the one
   before, its hash recomputable, keys unique, and the head at the end.
  */
  lemma {:induction false} AuditStreamIsChain(ops: seq<Op>, h: EventHash, i: nat, j: nat)
    ensures var s := Run(Registered(), ops, h);
            var n := |s.events|;
            && s.stream.first == (if n == 0 then 0 else 1) && s.stream.last == n
            && s.stream.currentHash == (if n == 0 then ZERO else s.events[n - 1].eventHash)
            && (i < n
                ==> && s.events[i].sequence == i + 1
                    && s.events[i].previousHash == (if i == 0 then ZERO else s.events[i - 1].eventHash)
                    && s.events[i].eventHash
                       == h(s.events[i].previousHash, s.events[i].sequence, s.events[i].payloadDigest))
            && (i < j < n ==> s.events[i].key != s.events[j].key)
  {
    RunIsConsistent(ops, h);
    var s := Run(Registered(), ops, h);
    ChainHead(s, h);
    if i < |s.events| { ChainMeans(s, h, i); }
  }

  // ---------------------------------------------------------------------------
  // Deregistration is final
  // ---------------------------------------------------------------------------

  /** Without a release no observation is current, so nothing is projected and the row guard is not even reached. */
  lemma ReportOnDeregistered(s: State, o: Observation, h: EventHash)
    requires PointersCleared(s.component)
    ensures Report(s, o, h).Done? ==> Report(s, o, h).state.component == s.component
    ensures Report(s, o, h).Rejected? ==> Report(s, o, h).error != GuardRefused
  {
    assert !ObservationCurrent(s, o);
  }

  lemma {:induction false} ReportsOnDeregistered(s: State, os: seq<Observation>, h: EventHash)
    requires PointersCleared(s.component)
    ensures Reports(s, os, h).Done? ==> Reports(s, os, h).state.component == s.component
    ensures Reports(s, os, h).Rejected? ==> Reports(s, os, h).error != GuardRefused
    decreases |os|
  {
    if os != [] {
      ReportsOnDeregistered(s, os[..|os| - 1], h);
      var before := Reports(s, os[..|os| - 1], h);
      if before.Done? { ReportOnDeregistered(before.state, os[|os| - 1], h); }
    }
  }

  lemma BeatOnDeregistered(s: State, b: Heartbeat, platform: nat, deployment: nat, h: EventHash)
    requires PointersCleared(s.component)
    ensures var r := Beat(s, b, platform, deployment, h);
            && (r.Done? ==> r.state.component == s.component && r.state.runtimes == s.runtimes)
            && (r.Rejected? ==> r.error != GuardRefused)
            && (b.codeMatches && b.sequence > 0 && Find(s.events, HeartbeatKey(b.generation, b.sequence)) == |s.events|
                ==> r.Done? && |r.state.events| == |s.events| + 1)
  {
    assert !LineageCurrent(s, b, platform, deployment);
  }

  /** No command, heartbeat or report on a deregistered component gets as far as an update of its row. */
  lemma DeregisteredStays(s: State, op: Op, h: EventHash)
    requires Consistent(s, h) && s.component.lifecycle == DEREGISTERED
    ensures Handle(s, op, h).Done? ==> Handle(s, op, h).state.component == s.component
    ensures Handle(s, op, h).Rejected? && !op.Elsewhere? ==> Handle(s, op, h).error != GuardRefused
    ensures op.CommandOp? ==> Handle(s, op, h) == Rejected(if op.expected == Some(s.component.stateVersion)
                                                           then TerminalImmutable else VersionConflict)
  {
    match op
    case BeatOp(b, platform, deployment) => BeatOnDeregistered(s, b, platform, deployment, h);
    case ReportOp(os) => ReportsOnDeregistered(s, os, h);
    case CommandOp(command, expected, operation, digest) =>
    case Elsewhere(_, _, _, _) =>
  }

  lemma StepOnDeregistered(s: State, op: Op, h: EventHash)
    requires Consistent(s, h) && s.component.lifecycle == DEREGISTERED
    ensures Step(s, op, h).component == s.component
  {
    DeregisteredStays(s, op, h);
  }

  lemma {:induction false} RunLast(s: State, all: seq<Op>, h: EventHash)
    requires all != []
    ensures Run(s, all, h) == Step(Run(s, all[..|all| - 1], h), all[|all| - 1], h)
  {
  }

  /** Once deregistered, the row is the same after every further run. */
  lemma {:induction false} DeregisteredIsFinal(ops: seq<Op>, more: seq<Op>, h: EventHash)
    requires Run(Registered(), ops, h).component.lifecycle == DEREGISTERED
    ensures Run(Registered(), ops + more, h).component == Run(Registered(), ops, h).component
    decreases |more|
  {
    if more == [] {
      assert ops + more == ops;
    } else {
      var front := more[..|more| - 1];
      DeregisteredIsFinal(ops, front, h);
      RunIsConsistent(ops + front, h);
      assert (ops + more)[..|ops + more| - 1] == ops + front;
      RunLast(Registered(), ops + more, h);
      StepOnDeregistered(Run(Registered(), ops + front, h), more[|more| - 1], h);
    }
  }

  // ---------------------------------------------------------------------------
  // Heartbeats in any order
  // ---------------------------------------------------------------------------

  function KeyOf(b: Heartbeat): EventKey { HeartbeatKey(b.generation, b.sequence) }

  /** The stream already holds an event under this key. */
  predicate Known(s: State, key: EventKey) { Find(s.events, key) < |s.events| }

  predicate Deliverable(s: State, b: Heartbeat, platform: nat, deployment: nat) {
    b.codeMatches && b.sequence > 0 && LineageCurrent(s, b, platform, deployment)
  }

  predicate SameLineage(s: State, t: State, runtime: nat) {
    && runtime < |s.runtimes| == |t.runtimes|
    && t.component.release == s.component.release && t.component.bindingSet == s.component.bindingSet
    && t.component.activationEpoch == s.component.activationEpoch
    && t.runtimes[runtime] == s.runtimes[runtime].(heartbeatSequence := t.runtimes[runtime].heartbeatSequence,
                                                   degraded := t.runtimes[runtime].degraded)
  }

  predicate AllDeliverable(s: State, runtime: nat, bs: seq<Heartbeat>, platform: nat, deployment: nat) {
    forall b :: b in bs ==> b.runtime == runtime && Deliverable(s, b, platform, deployment)
  }

  /** What heartbeats move: the runtime's sequence and two columns of the component. */
  datatype Shown = Shown(sequence: nat, operational: Operational, monitoring: Monitoring)

  function Showing(s: State, runtime: nat): Shown
    requires runtime < |s.runtimes|
  {
    Shown(s.runtimes[runtime].heartbeatSequence, s.component.operational, s.component.monitoring)
  }

  function MonitoringOf(ready: bool): Monitoring { if ready then MON_HEALTHY else MON_DEGRADED }

  /** One accepted heartbeat: older ones move nothing, and monitoring follows changes of the operational state. */
  function Next(x: Shown, b: Heartbeat): Shown {
    if b.sequence <= x.sequence then x
    else Shown(b.sequence, b.operational,
               if b.operational == x.operational then x.monitoring else MonitoringOf(b.ready))
  }

  function Settle(x: Shown, bs: seq<Heartbeat>): Shown
    decreases |bs|
  {
    if bs == [] then x else Next(Settle(x, bs[..|bs| - 1]), bs[|bs| - 1])
  }

  /** The heartbeats the stream has not recorded before. */
  function Fresh(s: State, bs: seq<Heartbeat>): seq<Heartbeat>
    decreases |bs|
  {
    if bs == [] then []
    else
      var b := bs[|bs| - 1];
      if Known(s, KeyOf(b)) then Fresh(s, bs[..|bs| - 1]) else Fresh(s, bs[..|bs| - 1]) + [b]
  }

  lemma UpdateOfCurrentIsAccepted(s: State, o: Operational, m: Monitoring, h: EventHash)
    requires Consistent(s, h) && s.component.release.Some?
    ensures var c := s.component.(operational := o, monitoring := m);
            GuardAccepts(s.component,
                c.(stateVersion := s.component.stateVersion + 1, eventSequence := s.component.eventSequence + 1))
  {
  }

  lemma KnownAfterAppend(s: State, t: State, e: Event, key: EventKey)
    requires t.events == s.events + [e]
    ensures Known(t, key) <==> Known(s, key) || key == e.key
  {
    if Known(s, key) {
      assert t.events[Find(s.events, key)].key == key;
    }
    assert t.events[|s.events|] == e;
    if Known(t, key) {
      var i := Find(t.events, key);
      assert i < |s.events| ==> s.events[i].key == key;
    }
  }

  /** One delivery: a known key moves nothing, a new one moves the projection on and becomes known. */
  lemma BeatShows(s: State, b: Heartbeat, platform: nat, deployment: nat, h: EventHash)
    requires Consistent(s, h) && Deliverable(s, b, platform, deployment)
    ensures var t := Step(s, BeatOp(b, platform, deployment), h);
            && Consistent(t, h) && SameLineage(s, t, b.runtime)
            && Showing(t, b.runtime)
               == (if Known(s, KeyOf(b)) then Showing(s, b.runtime) else Next(Showing(s, b.runtime), b))
            && (Known(s, KeyOf(b)) ==> t.events == s.events)
            && (!Known(s, KeyOf(b)) ==> |t.events| == |s.events| + 1 && t.events[..|s.events|] == s.events
                                        && t.events[|s.events|].key == KeyOf(b))
  {
    HandleKeepsConsistent(s, BeatOp(b, platform, deployment), h);
    UpdateOfCurrentIsAccepted(s, b.operational, MonitoringOf(b.ready), h);
  }

  lemma BeatMakesKnown(s: State, b: Heartbeat, platform: nat, deployment: nat, h: EventHash, key: EventKey)
    requires Consistent(s, h) && Deliverable(s, b, platform, deployment)
    ensures Known(Step(s, BeatOp(b, platform, deployment), h), key) <==> Known(s, key) || key == KeyOf(b)
  {
    var t := Step(s, BeatOp(b, platform, deployment), h);
    BeatShows(s, b, platform, deployment, h);
    if !Known(s, KeyOf(b)) {
      assert t.events == t.events[..|s.events|] + [t.events[|s.events|]];
      KnownAfterAppend(s, t, t.events[|s.events|], key);
    }
  }

  /** A current heartbeat above the runtime's sequence moves it exactly when its key is new to the stream. */
  lemma BeatAdvancesExactly(s: State, b: Heartbeat, platform: nat, deployment: nat, h: EventHash)
    requires Consistent(s, h) && Deliverable(s, b, platform, deployment)
    requires b.sequence > s.runtimes[b.runtime].heartbeatSequence
    ensures var t := Step(s, BeatOp(b, platform, deployment), h);
            && |t.runtimes| == |s.runtimes|
            && (t.runtimes[b.runtime].heartbeatSequence == b.sequence <==> !Known(s, KeyOf(b)))
  {
    BeatShows(s, b, platform, deployment, h);
  }

  function Deliver(s: State, bs: seq<Heartbeat>, platform: nat, deployment: nat, h: EventHash): State
    decreases |bs|
  {
    if bs == [] then s
    else Step(Deliver(s, bs[..|bs| - 1], platform, deployment, h), BeatOp(bs[|bs| - 1], platform, deployment), h)
  }

  lemma {:induction false} FreshMeans(s: State, bs: seq<Heartbeat>, b: Heartbeat)
    ensures b in Fresh(s, bs) <==> b in bs && !Known(s, KeyOf(b))
    decreases |bs|
  {
    if bs != [] {
      FreshMeans(s, bs[..|bs| - 1], b);
      assert bs == bs[..|bs| - 1] + [bs[|bs| - 1]];
    }
  }

  /** Settling never goes back, reaches every sequence, and ends with a heartbeat that carries the end sequence. */
  lemma {:induction false} SettleIsMaximum(x: Shown, bs: seq<Heartbeat>)
    ensures var r := Settle(x, bs);
            && r.sequence >= x.sequence && (r.sequence == x.sequence ==> r == x)
            && (forall b :: b in bs ==> b.sequence <= r.sequence)
            && (r != x ==> exists b :: b in bs && b.sequence == r.sequence && b.operational == r.operational)
    decreases |bs|
  {
    if bs != [] {
      var front, last := bs[..|bs| - 1], bs[|bs| - 1];
      SettleIsMaximum(x, front);
      assert bs == front + [last];
      assert last in bs;
    }
  }

  predicate KeyDelivered(bs: seq<Heartbeat>, key: EventKey) {
    exists i :: 0 <= i < |bs| && KeyOf(bs[i]) == key
  }

  /** A key that is known although it was new at first comes from a delivered heartbeat, which has already counted. */
  lemma RepeatMovesNothing(s: State, runtime: nat, x: Shown, front: seq<Heartbeat>, b: Heartbeat)
    requires !Known(s, KeyOf(b)) && KeyDelivered(front, KeyOf(b))
    ensures Next(Settle(x, Fresh(s, front)), b) == Settle(x, Fresh(s, front))
  {
    var i :| 0 <= i < |front| && KeyOf(front[i]) == KeyOf(b);
    FreshMeans(s, front, front[i]);
    SettleIsMaximum(x, Fresh(s, front));
  }

  lemma DeliverableParts(
      s: State, runtime: nat, front: seq<Heartbeat>, last: Heartbeat, platform: nat, deployment: nat)
    requires AllDeliverable(s, runtime, front + [last], platform, deployment)
    ensures AllDeliverable(s, runtime, front, platform, deployment)
    ensures last.runtime == runtime && Deliverable(s, last, platform, deployment)
  {
    var bs := front + [last];
    assert last in bs;
    forall b | b in front ensures b.runtime == runtime && Deliverable(s, b, platform, deployment) { assert b in bs; }
  }

  lemma DeliverableLater(s: State, t: State, b: Heartbeat, platform: nat, deployment: nat)
    requires Deliverable(s, b, platform, deployment) && SameLineage(s, t, b.runtime)
    ensures Deliverable(t, b, platform, deployment)
  {
  }

  lemma {:induction false} DeliverKeepsLineage(
      s: State, runtime: nat, bs: seq<Heartbeat>, platform: nat, deployment: nat, h: EventHash)
    requires Consistent(s, h) && runtime < |s.runtimes| && AllDeliverable(s, runtime, bs, platform, deployment)
    ensures var t := Deliver(s, bs, platform, deployment, h); Consistent(t, h) && SameLineage(s, t, runtime)
    decreases |bs|
  {
    if bs != [] {
      var front, last := bs[..|bs| - 1], bs[|bs| - 1];
      assert bs == front + [last];
      DeliverableParts(s, runtime, front, last, platform, deployment);
      DeliverKeepsLineage(s, runtime, front, platform, deployment, h);
      var middle := Deliver(s, front, platform, deployment, h);
      DeliverableLater(s, middle, last, platform, deployment);
      BeatShows(middle, last, platform, deployment, h);
      assert Deliver(s, bs, platform, deployment, h) == Step(middle, BeatOp(last, platform, deployment), h);
    }
  }

  lemma KeyDeliveredLast(front: seq<Heartbeat>, last: Heartbeat, key: EventKey)
    ensures KeyDelivered(front + [last], key) <==> KeyDelivered(front, key) || KeyOf(last) == key
  {
    var bs := front + [last];
    if KeyDelivered(front, key) {
      var i :| 0 <= i < |front| && KeyOf(front[i]) == key;
      assert KeyOf(bs[i]) == key;
    }
    assert bs[|front|] == last;
    if KeyDelivered(bs, key) {
      var i :| 0 <= i < |bs| && KeyOf(bs[i]) == key;
      assert i < |front| ==> KeyOf(front[i]) == key;
    }
  }

  lemma {:induction false} DeliverKnows(
      s: State, runtime: nat, bs: seq<Heartbeat>, platform: nat, deployment: nat, h: EventHash, key: EventKey)
    requires Consistent(s, h) && runtime < |s.runtimes| && AllDeliverable(s, runtime, bs, platform, deployment)
    ensures Known(Deliver(s, bs, platform, deployment, h), key) <==> Known(s, key) || KeyDelivered(bs, key)
    decreases |bs|
  {
    if bs != [] {
      var front, last := bs[..|bs| - 1], bs[|bs| - 1];
      assert bs == front + [last];
      DeliverableParts(s, runtime, front, last, platform, deployment);
      DeliverKeepsLineage(s, runtime, front, platform, deployment, h);
      DeliverKnows(s, runtime, front, platform, deployment, h, key);
      var middle := Deliver(s, front, platform, deployment, h);
      DeliverableLater(s, middle, last, platform, deployment);
      BeatMakesKnown(middle, last, platform, deployment, h, key);
      assert Deliver(s, bs, platform, deployment, h) == Step(middle, BeatOp(last, platform, deployment), h);
      KeyDeliveredLast(front, last, key);
    }
  }

  /** The next heartbeat settles on top of what the earlier ones left. */
  lemma BeatSettles(
      s: State, middle: State, x: Shown, front: seq<Heartbeat>, b: Heartbeat, platform: nat, deployment: nat,
      h: EventHash)
    requires Consistent(middle, h) && Deliverable(middle, b, platform, deployment)
    requires Showing(middle, b.runtime) == Settle(x, Fresh(s, front))
    requires Known(middle, KeyOf(b)) <==> Known(s, KeyOf(b)) || KeyDelivered(front, KeyOf(b))
    ensures var t := Step(middle, BeatOp(b, platform, deployment), h);
            |t.runtimes| == |middle.runtimes| && Showing(t, b.runtime) == Settle(x, Fresh(s, front + [b]))
  {
    BeatShows(middle, b, platform, deployment, h);
    FreshAppend(s, front, b);
    SettleAppend(x, Fresh(s, front), b);
    if !Known(s, KeyOf(b)) && KeyDelivered(front, KeyOf(b)) { RepeatMovesNothing(s, b.runtime, x, front, b); }
  }

  /** From any state, delivered heartbeats leave what the fresh ones among them settle on. */
  lemma {:induction false} DeliverSettles(
      s: State, runtime: nat, bs: seq<Heartbeat>, platform: nat, deployment: nat, h: EventHash)
    requires Consistent(s, h) && runtime < |s.runtimes| && AllDeliverable(s, runtime, bs, platform, deployment)
    ensures var t := Deliver(s, bs, platform, deployment, h);
            && Consistent(t, h) && SameLineage(s, t, runtime)
            && Showing(t, runtime) == Settle(Showing(s, runtime), Fresh(s, bs))
    decreases |bs|
  {
    DeliverKeepsLineage(s, runtime, bs, platform, deployment, h);
    if bs != [] {
      var front, last := bs[..|bs| - 1], bs[|bs| - 1];
      assert bs == front + [last];
      DeliverableParts(s, runtime, front, last, platform, deployment);
      DeliverSettles(s, runtime, front, platform, deployment, h);
      DeliverKnows(s, runtime, front, platform, deployment, h, KeyOf(last));
      var middle := Deliver(s, front, platform, deployment, h);
      DeliverableLater(s, middle, last, platform, deployment);
      BeatSettles(s, middle, Showing(s, runtime), front, last, platform, deployment, h);
      assert Deliver(s, bs, platform, deployment, h) == Step(middle, BeatOp(last, platform, deployment), h);
    }
  }

  lemma FreshAppend(s: State, front: seq<Heartbeat>, b: Heartbeat)
    ensures Fresh(s, front + [b]) == if Known(s, KeyOf(b)) then Fresh(s, front) else Fresh(s, front) + [b]
  {
    assert (front + [b])[..|front|] == front;
  }

  lemma SettleAppend(x: Shown, front: seq<Heartbeat>, b: Heartbeat)
    ensures Settle(x, front + [b]) == Next(Settle(x, front), b)
  {
    assert (front + [b])[..|front|] == front;
  }

  // ---------------------------------------------------------------------------
  // Where delivery ends
  // ---------------------------------------------------------------------------

  function Highest(sequence: nat, bs: seq<Heartbeat>): nat
    decreases |bs|
  {
    if bs == [] then sequence
    else
      var front := Highest(sequence, bs[..|bs| - 1]);
      if bs[|bs| - 1].sequence > front then bs[|bs| - 1].sequence else front
  }

  lemma {:induction false} HighestIs(sequence: nat, bs: seq<Heartbeat>)
    ensures Highest(sequence, bs) >= sequence && forall b :: b in bs ==> b.sequence <= Highest(sequence, bs)
    ensures Highest(sequence, bs) == sequence || exists b :: b in bs && b.sequence == Highest(sequence, bs)
    decreases |bs|
  {
    if bs != [] {
      var front, last := bs[..|bs| - 1], bs[|bs| - 1];
      HighestIs(sequence, front);
      assert bs == front + [last];
      assert last in bs;
    }
  }

  /** The runtime ends at the highest sequence of the start and the fresh heartbeats. */
  lemma DeliveryEndsAtHighestFresh(
      s: State, runtime: nat, bs: seq<Heartbeat>, platform: nat, deployment: nat, h: EventHash)
    requires Consistent(s, h) && runtime < |s.runtimes| && AllDeliverable(s, runtime, bs, platform, deployment)
    ensures var q := s.runtimes[runtime].heartbeatSequence;
            var t := Deliver(s, bs, platform, deployment, h);
            |t.runtimes| == |s.runtimes| && t.runtimes[runtime].heartbeatSequence == Highest(q, Fresh(s, bs))
  {
    DeliverSettles(s, runtime, bs, platform, deployment, h);
    SettleIsMaximum(Showing(s, runtime), Fresh(s, bs));
    HighestIs(s.runtimes[runtime].heartbeatSequence, Fresh(s, bs));
  }

  /** That is the highest of all delivered sequences exactly if it does not exceed the start or its key was new. */
  lemma DeliveryReachesMaximumExactly(
      s: State, runtime: nat, bs: seq<Heartbeat>, platform: nat, deployment: nat, h: EventHash)
    requires Consistent(s, h) && runtime < |s.runtimes| && AllDeliverable(s, runtime, bs, platform, deployment)
    ensures var r := s.runtimes[runtime];
            var top := Highest(r.heartbeatSequence, bs);
            var t := Deliver(s, bs, platform, deployment, h);
            && |t.runtimes| == |s.runtimes|
            && (t.runtimes[runtime].heartbeatSequence == top
                <==> top == r.heartbeatSequence || !Known(s, HeartbeatKey(r.generation, top)))
  {
    var r := s.runtimes[runtime];
    var top := Highest(r.heartbeatSequence, bs);
    DeliveryEndsAtHighestFresh(s, runtime, bs, platform, deployment, h);
    HighestIs(r.heartbeatSequence, bs);
    HighestIs(r.heartbeatSequence, Fresh(s, bs));
    forall b ensures b in Fresh(s, bs) <==> b in bs && !Known(s, KeyOf(b)) { FreshMeans(s, bs, b); }
    forall b | b in bs ensures KeyOf(b) == HeartbeatKey(r.generation, b.sequence) {
      assert Deliverable(s, b, platform, deployment);
    }
  }

  /** The same heartbeats, in any order and with any duplication. */
  predicate SameHeartbeats(bs: seq<Heartbeat>, cs: seq<Heartbeat>) {
    (forall b :: b in bs ==> b in cs) && forall b :: b in cs ==> b in bs
  }

  lemma SameFresh(s: State, bs: seq<Heartbeat>, cs: seq<Heartbeat>)
    requires SameHeartbeats(bs, cs)
    ensures SameHeartbeats(Fresh(s, bs), Fresh(s, cs))
  {
    forall b ensures b in Fresh(s, bs) <==> b in Fresh(s, cs) {
      FreshMeans(s, bs, b);
      FreshMeans(s, cs, b);
    }
  }

  /** Newer heartbeats that carry the highest fresh sequence agree on the operational state. */
  predicate TopAgrees(sequence: nat, news: seq<Heartbeat>) {
    forall a, b :: a in news && b in news && a.sequence == b.sequence == Highest(sequence, news) > sequence
                   ==> a.operational == b.operational
  }

  lemma {:induction false} SettleConcat(x: Shown, a: seq<Heartbeat>, b: seq<Heartbeat>)
    ensures Settle(x, a + b) == Settle(Settle(x, a), b)
    decreases |b|
  {
    if b == [] {
      assert a + b == a;
    } else {
      SettleConcat(x, a, b[..|b| - 1]);
      assert (a + b)[..|a + b| - 1] == a + b[..|b| - 1];
    }
  }

  lemma {:induction false} SettledStays(x: Shown, bs: seq<Heartbeat>)
    requires forall b :: b in bs ==> b.sequence <= x.sequence
    ensures Settle(x, bs) == x
    decreases |bs|
  {
    if bs != [] {
      assert bs[|bs| - 1] in bs;
      SettledStays(x, bs[..|bs| - 1]);
    }
  }

  lemma {:induction false} FreshConcat(s: State, a: seq<Heartbeat>, b: seq<Heartbeat>)
    ensures Fresh(s, a + b) == Fresh(s, a) + Fresh(s, b)
    decreases |b|
  {
    if b == [] {
      assert a + b == a;
    } else {
      FreshConcat(s, a, b[..|b| - 1]);
      assert (a + b)[..|a + b| - 1] == a + b[..|b| - 1];
    }
  }

  lemma {:induction false} FreshOfNew(s: State, bs: seq<Heartbeat>)
    requires forall b :: b in bs ==> !Known(s, KeyOf(b))
    ensures Fresh(s, bs) == bs
    decreases |bs|
  {
    if bs != [] {
      var front, last := bs[..|bs| - 1], bs[|bs| - 1];
      assert last in bs;
      FreshOfNew(s, front);
      assert bs == front + [last];
    }
  }

  /** Delivering `first` before the list: it settles first, and the list moves nothing any more. */
  lemma DeliverAfter(
      s: State, runtime: nat, first: seq<Heartbeat>, bs: seq<Heartbeat>, platform: nat, deployment: nat, h: EventHash)
    requires Consistent(s, h) && runtime < |s.runtimes| && AllDeliverable(s, runtime, bs, platform, deployment)
    requires forall b :: b in first ==> b in bs && !Known(s, KeyOf(b))
    requires forall b :: b in Fresh(s, bs) ==> b.sequence <= Settle(Showing(s, runtime), first).sequence
    ensures SameHeartbeats(first + bs, bs)
    ensures var t := Deliver(s, first + bs, platform, deployment, h);
            |t.runtimes| == |s.runtimes| && Showing(t, runtime) == Settle(Showing(s, runtime), first)
  {
    var x := Showing(s, runtime);
    assert forall b :: b in first + bs ==> b in bs;
    DeliverSettles(s, runtime, first + bs, platform, deployment, h);
    FreshConcat(s, first, bs);
    FreshOfNew(s, first);
    SettleConcat(x, first, Fresh(s, bs));
    SettledStays(Settle(x, first), Fresh(s, bs));
  }

  // ---------------------------------------------------------------------------
  // Order and duplication
  // ---------------------------------------------------------------------------

  ghost predicate OperationalIsFixed(s: State, bs: seq<Heartbeat>, platform: nat, deployment: nat, h: EventHash) {
    forall cs {:trigger SameHeartbeats(cs, bs)} :: SameHeartbeats(cs, bs)
      ==> Deliver(s, cs, platform, deployment, h).component.operational
          == Deliver(s, bs, platform, deployment, h).component.operational
  }

  /** Any order and any duplication of the same heartbeats end at the same sequence. */
  lemma DeliveryOrderIsIrrelevant(
      s: State, runtime: nat, bs: seq<Heartbeat>, cs: seq<Heartbeat>, platform: nat, deployment: nat, h: EventHash)
    requires Consistent(s, h) && runtime < |s.runtimes| && AllDeliverable(s, runtime, bs, platform, deployment)
    requires SameHeartbeats(cs, bs)
    ensures var t, u := Deliver(s, bs, platform, deployment, h), Deliver(s, cs, platform, deployment, h);
            && |t.runtimes| == |u.runtimes| == |s.runtimes|
            && t.runtimes[runtime].heartbeatSequence == u.runtimes[runtime].heartbeatSequence
            && (TopAgrees(s.runtimes[runtime].heartbeatSequence, Fresh(s, bs))
                ==> t.component.operational == u.component.operational)
  {
    var x := Showing(s, runtime);
    DeliverSettles(s, runtime, bs, platform, deployment, h);
    DeliverSettles(s, runtime, cs, platform, deployment, h);
    SameFresh(s, bs, cs);
    SettleIsMaximum(x, Fresh(s, bs));
    SettleIsMaximum(x, Fresh(s, cs));
    HighestIs(x.sequence, Fresh(s, bs));
  }

  lemma AgreeingTopFixes(s: State, runtime: nat, bs: seq<Heartbeat>, platform: nat, deployment: nat, h: EventHash)
    requires Consistent(s, h) && runtime < |s.runtimes| && AllDeliverable(s, runtime, bs, platform, deployment)
    requires TopAgrees(s.runtimes[runtime].heartbeatSequence, Fresh(s, bs))
    ensures OperationalIsFixed(s, bs, platform, deployment, h)
  {
    forall cs | SameHeartbeats(cs, bs)
      ensures Deliver(s, cs, platform, deployment, h).component.operational
          == Deliver(s, bs, platform, deployment, h).component.operational
    {
      DeliveryOrderIsIrrelevant(s, runtime, bs, cs, platform, deployment, h);
    }
  }

  lemma FixedIsNewest(
      s: State, runtime: nat, bs: seq<Heartbeat>, a: Heartbeat, platform: nat, deployment: nat, h: EventHash)
    requires Consistent(s, h) && runtime < |s.runtimes| && AllDeliverable(s, runtime, bs, platform, deployment)
    requires OperationalIsFixed(s, bs, platform, deployment, h) && a in Fresh(s, bs)
    requires a.sequence == Highest(s.runtimes[runtime].heartbeatSequence, Fresh(s, bs))
    requires a.sequence > s.runtimes[runtime].heartbeatSequence
    ensures Deliver(s, bs, platform, deployment, h).component.operational == a.operational
  {
    FirstOfNewest(s, runtime, bs, a, platform, deployment, h);
    assert Deliver(s, [a] + bs, platform, deployment, h).component.operational
        == Deliver(s, bs, platform, deployment, h).component.operational;
  }

  /** They end at the same operational state exactly if the newest fresh ones agree on it. */
  lemma OperationalIsFixedExactly(
      s: State, runtime: nat, bs: seq<Heartbeat>, platform: nat, deployment: nat, h: EventHash)
    requires Consistent(s, h) && runtime < |s.runtimes| && AllDeliverable(s, runtime, bs, platform, deployment)
    ensures OperationalIsFixed(s, bs, platform, deployment, h)
            <==> TopAgrees(s.runtimes[runtime].heartbeatSequence, Fresh(s, bs))
  {
    var q, news := s.runtimes[runtime].heartbeatSequence, Fresh(s, bs);
    if TopAgrees(q, news) { AgreeingTopFixes(s, runtime, bs, platform, deployment, h); }
    if OperationalIsFixed(s, bs, platform, deployment, h) {
      forall a, b | a in news && b in news && a.sequence == b.sequence == Highest(q, news) > q
        ensures a.operational == b.operational
      {
        FixedIsNewest(s, runtime, bs, a, platform, deployment, h);
        FixedIsNewest(s, runtime, bs, b, platform, deployment, h);
      }
    }
  }

  /** A newest fresh heartbeat delivered first decides. */
  lemma FirstOfNewest(
      s: State, runtime: nat, bs: seq<Heartbeat>, a: Heartbeat, platform: nat, deployment: nat, h: EventHash)
    requires Consistent(s, h) && runtime < |s.runtimes| && AllDeliverable(s, runtime, bs, platform, deployment)
    requires a in Fresh(s, bs) && a.sequence == Highest(s.runtimes[runtime].heartbeatSequence, Fresh(s, bs))
    requires a.sequence > s.runtimes[runtime].heartbeatSequence
    ensures SameHeartbeats([a] + bs, bs)
    ensures var t := Deliver(s, [a] + bs, platform, deployment, h);
            |t.runtimes| == |s.runtimes| && Showing(t, runtime) == Next(Showing(s, runtime), a)
  {
    var x := Showing(s, runtime);
    FreshMeans(s, bs, a);
    HighestIs(x.sequence, Fresh(s, bs));
    SettleAppend(x, [], a);
    assert [] + [a] == [a];
    DeliverAfter(s, runtime, [a], bs, platform, deployment, h);
  }

  // ---------------------------------------------------------------------------
  // The monitoring state
  // ---------------------------------------------------------------------------

  ghost predicate MonitoringIsFixed(s: State, bs: seq<Heartbeat>, platform: nat, deployment: nat, h: EventHash) {
    forall cs {:trigger SameHeartbeats(cs, bs)} :: SameHeartbeats(cs, bs)
      ==> Deliver(s, cs, platform, deployment, h).component.monitoring
          == Deliver(s, bs, platform, deployment, h).component.monitoring
  }

  /** One of the newer heartbeats with the highest sequence.  Under conflicting digests there may be several. */
  predicate IsTop(x: Shown, news: seq<Heartbeat>, top: Heartbeat) {
    top in news && top.sequence == Highest(x.sequence, news) > x.sequence
  }

  /** Something that can be shown before `y` differs from it in the operational state. */
  predicate Preceded(x: Shown, news: seq<Heartbeat>, y: Heartbeat) {
    x.operational != y.operational || exists z :: z in news && DiffersBelow(x, z, y)
  }

  predicate DiffersBelow(x: Shown, z: Heartbeat, y: Heartbeat) {
    x.sequence < z.sequence < y.sequence && z.operational != y.operational
  }

  /** `y` can be the one that switches to the operational state `end` ends with. */
  predicate CanSwitch(x: Shown, news: seq<Heartbeat>, y: Heartbeat, end: Heartbeat) {
    && y in news && y.sequence > x.sequence && (y == end || y.sequence < end.sequence)
    && y.operational == end.operational && Preceded(x, news, y)
  }

  /** All that can come first or switch last leave one monitoring state. */
  ghost predicate MonitoringSettled(x: Shown, news: seq<Heartbeat>) {
    && (forall t, u :: IsTop(x, news, t) && IsTop(x, news, u) ==> Next(x, t).monitoring == Next(x, u).monitoring)
    && (forall t, y :: IsTop(x, news, t) && CanSwitch(x, news, y, t) ==> MonitoringOf(y.ready) == Next(x, t).monitoring)
  }

  /** `r` ends with `end`, and its monitoring state is the first one or comes from the last switch. */
  ghost predicate EndsWith(x: Shown, news: seq<Heartbeat>, r: Shown, end: Heartbeat) {
    && end in news && end.sequence == r.sequence > x.sequence && end.operational == r.operational
    && ((r.operational == x.operational && r.monitoring == x.monitoring)
        || exists y :: CanSwitch(x, news, y, end) && r.monitoring == MonitoringOf(y.ready))
  }

  lemma NextEndsWith(x: Shown, news: seq<Heartbeat>, r: Shown, b: Heartbeat)
    requires b in news && b.sequence > r.sequence
    requires r == x || exists z :: EndsWith(x, news, r, z)
    ensures EndsWith(x, news, Next(r, b), b)
  {
    if r == x {
      if b.operational != x.operational { assert CanSwitch(x, news, b, b); }
    } else {
      var z :| EndsWith(x, news, r, z);
      if b.operational != r.operational {
        assert DiffersBelow(x, z, b);
        assert CanSwitch(x, news, b, b);
      } else if !(r.operational == x.operational && r.monitoring == x.monitoring) {
        var y :| CanSwitch(x, news, y, z) && r.monitoring == MonitoringOf(y.ready);
        assert CanSwitch(x, news, y, b);
      }
    }
  }

  lemma {:induction false} SettleEndsWith(x: Shown, news: seq<Heartbeat>, bs: seq<Heartbeat>)
    requires forall b :: b in bs ==> b in news
    ensures Settle(x, bs) == x || exists z :: EndsWith(x, news, Settle(x, bs), z)
    decreases |bs|
  {
    if bs != [] {
      var front, last := bs[..|bs| - 1], bs[|bs| - 1];
      assert bs == front + [last] && last in bs;
      SettleEndsWith(x, news, front);
      if last.sequence > Settle(x, front).sequence { NextEndsWith(x, news, Settle(x, front), last); }
    }
  }

  /** Without a newer fresh heartbeat nothing moves. */
  lemma NothingNewerMovesNothing(
      s: State, runtime: nat, bs: seq<Heartbeat>, platform: nat, deployment: nat, h: EventHash)
    requires Consistent(s, h) && runtime < |s.runtimes| && AllDeliverable(s, runtime, bs, platform, deployment)
    requires Highest(s.runtimes[runtime].heartbeatSequence, Fresh(s, bs)) == s.runtimes[runtime].heartbeatSequence
    ensures |Deliver(s, bs, platform, deployment, h).runtimes| == |s.runtimes|
    ensures Showing(Deliver(s, bs, platform, deployment, h), runtime) == Showing(s, runtime)
  {
    DeliverSettles(s, runtime, bs, platform, deployment, h);
    HighestIs(s.runtimes[runtime].heartbeatSequence, Fresh(s, bs));
    SettledStays(Showing(s, runtime), Fresh(s, bs));
  }

  /** With newer ones, delivery ends with a top one and one of the monitoring states it allows. */
  lemma DeliveryEndsWithTop(
      s: State, runtime: nat, bs: seq<Heartbeat>, cs: seq<Heartbeat>, platform: nat, deployment: nat, h: EventHash)
      returns (top: Heartbeat)
    requires Consistent(s, h) && runtime < |s.runtimes| && AllDeliverable(s, runtime, bs, platform, deployment)
    requires SameHeartbeats(cs, bs)
    requires Highest(s.runtimes[runtime].heartbeatSequence, Fresh(s, bs)) > s.runtimes[runtime].heartbeatSequence
    ensures IsTop(Showing(s, runtime), Fresh(s, bs), top)
    ensures |Deliver(s, cs, platform, deployment, h).runtimes| == |s.runtimes|
    ensures EndsWith(Showing(s, runtime), Fresh(s, bs), Showing(Deliver(s, cs, platform, deployment, h), runtime), top)
  {
    var x, news := Showing(s, runtime), Fresh(s, bs);
    DeliverSettles(s, runtime, cs, platform, deployment, h);
    SameFresh(s, bs, cs);
    HighestIs(x.sequence, news);
    var r := Settle(x, Fresh(s, cs));
    SettleIsMaximum(x, Fresh(s, cs));
    SettleEndsWith(x, news, Fresh(s, cs));
    assert r.sequence == Highest(x.sequence, news);
    top :| EndsWith(x, news, r, top);
  }

  lemma SettledEnd(x: Shown, news: seq<Heartbeat>, r: Shown, top: Heartbeat)
    requires MonitoringSettled(x, news) && IsTop(x, news, top) && EndsWith(x, news, r, top)
    ensures r.monitoring == Next(x, top).monitoring
  {
    if !(r.operational == x.operational && r.monitoring == x.monitoring) {
      var y :| CanSwitch(x, news, y, top) && r.monitoring == MonitoringOf(y.ready);
    }
  }

  lemma SettledIsFixed(
      s: State, runtime: nat, bs: seq<Heartbeat>, cs: seq<Heartbeat>, platform: nat, deployment: nat, h: EventHash)
    requires Consistent(s, h) && runtime < |s.runtimes| && AllDeliverable(s, runtime, bs, platform, deployment)
    requires SameHeartbeats(cs, bs) && MonitoringSettled(Showing(s, runtime), Fresh(s, bs))
    ensures Deliver(s, cs, platform, deployment, h).component.monitoring
            == Deliver(s, bs, platform, deployment, h).component.monitoring
  {
    var x, news := Showing(s, runtime), Fresh(s, bs);
    HighestIs(x.sequence, news);
    if Highest(x.sequence, news) == x.sequence {
      NothingNewerMovesNothing(s, runtime, bs, platform, deployment, h);
      SameHighest(s, runtime, bs, cs);
      NothingNewerMovesNothing(s, runtime, cs, platform, deployment, h);
    } else {
      var t := DeliveryEndsWithTop(s, runtime, bs, bs, platform, deployment, h);
      var u := DeliveryEndsWithTop(s, runtime, bs, cs, platform, deployment, h);
      SettledEnd(x, news, Showing(Deliver(s, bs, platform, deployment, h), runtime), t);
      SettledEnd(x, news, Showing(Deliver(s, cs, platform, deployment, h), runtime), u);
    }
  }

  lemma SameHighest(s: State, runtime: nat, bs: seq<Heartbeat>, cs: seq<Heartbeat>)
    requires runtime < |s.runtimes| && SameHeartbeats(cs, bs)
    ensures var q := s.runtimes[runtime].heartbeatSequence; Highest(q, Fresh(s, cs)) == Highest(q, Fresh(s, bs))
  {
    SameFresh(s, bs, cs);
    HighestIs(s.runtimes[runtime].heartbeatSequence, Fresh(s, bs));
    HighestIs(s.runtimes[runtime].heartbeatSequence, Fresh(s, cs));
  }

  lemma WayToSwitch(x: Shown, news: seq<Heartbeat>, y: Heartbeat) returns (before: seq<Heartbeat>)
    requires y in news && y.sequence > x.sequence && Preceded(x, news, y)
    ensures forall b :: b in before ==> b in news
    ensures Settle(x, before).sequence < y.sequence && Settle(x, before).operational != y.operational
  {
    if x.operational != y.operational {
      before := [];
    } else {
      var z :| z in news && DiffersBelow(x, z, y);
      before := [z];
      assert [] + [z] == [z];
      SettleAppend(x, [], z);
    }
  }

  /** Some list of these heartbeats switches by `y` and ends at `top`. */
  lemma SwitchList(x: Shown, news: seq<Heartbeat>, y: Heartbeat, top: Heartbeat) returns (first: seq<Heartbeat>)
    requires IsTop(x, news, top) && CanSwitch(x, news, y, top)
    ensures forall b :: b in first ==> b in news
    ensures Settle(x, first) == Shown(top.sequence, top.operational, MonitoringOf(y.ready))
  {
    var before := WayToSwitch(x, news, y);
    first := before + [y, top];
    SettleAppend(x, before, y);
    SettleAppend(x, before + [y], top);
    assert before + [y] + [top] == first;
  }

  /** Delivered first, a list that ends at the newest sequence decides. */
  lemma FirstListDecides(
      s: State, runtime: nat, bs: seq<Heartbeat>, first: seq<Heartbeat>, platform: nat, deployment: nat, h: EventHash)
    requires Consistent(s, h) && runtime < |s.runtimes| && AllDeliverable(s, runtime, bs, platform, deployment)
    requires forall b :: b in first ==> b in Fresh(s, bs)
    requires Settle(Showing(s, runtime), first).sequence
             == Highest(s.runtimes[runtime].heartbeatSequence, Fresh(s, bs))
    ensures SameHeartbeats(first + bs, bs)
    ensures Deliver(s, first + bs, platform, deployment, h).component.monitoring
            == Settle(Showing(s, runtime), first).monitoring
  {
    forall b | b in first ensures b in bs && !Known(s, KeyOf(b)) { FreshMeans(s, bs, b); }
    HighestIs(s.runtimes[runtime].heartbeatSequence, Fresh(s, bs));
    DeliverAfter(s, runtime, first, bs, platform, deployment, h);
  }

  /** Fixed, the monitoring state is the one a top heartbeat leaves when it comes first. */
  lemma FixedByTop(
      s: State, runtime: nat, bs: seq<Heartbeat>, top: Heartbeat, platform: nat, deployment: nat, h: EventHash)
    requires Consistent(s, h) && runtime < |s.runtimes| && AllDeliverable(s, runtime, bs, platform, deployment)
    requires MonitoringIsFixed(s, bs, platform, deployment, h) && IsTop(Showing(s, runtime), Fresh(s, bs), top)
    ensures Deliver(s, bs, platform, deployment, h).component.monitoring == Next(Showing(s, runtime), top).monitoring
  {
    FirstOfNewest(s, runtime, bs, top, platform, deployment, h);
    assert Deliver(s, [top] + bs, platform, deployment, h).component.monitoring
        == Deliver(s, bs, platform, deployment, h).component.monitoring;
  }

  /** Fixed, it is also the one of any heartbeat that can switch last. */
  lemma FixedBySwitch(
      s: State, runtime: nat, bs: seq<Heartbeat>, y: Heartbeat, top: Heartbeat,
      platform: nat, deployment: nat, h: EventHash)
    requires Consistent(s, h) && runtime < |s.runtimes| && AllDeliverable(s, runtime, bs, platform, deployment)
    requires MonitoringIsFixed(s, bs, platform, deployment, h)
    requires IsTop(Showing(s, runtime), Fresh(s, bs), top) && CanSwitch(Showing(s, runtime), Fresh(s, bs), y, top)
    ensures Deliver(s, bs, platform, deployment, h).component.monitoring == MonitoringOf(y.ready)
  {
    var first := SwitchList(Showing(s, runtime), Fresh(s, bs), y, top);
    FirstListDecides(s, runtime, bs, first, platform, deployment, h);
    assert Deliver(s, first + bs, platform, deployment, h).component.monitoring
        == Deliver(s, bs, platform, deployment, h).component.monitoring;
  }

  /** The monitoring state is the same for every order and duplication exactly if it is settled. */
  lemma MonitoringIsFixedExactly(
      s: State, runtime: nat, bs: seq<Heartbeat>, platform: nat, deployment: nat, h: EventHash)
    requires Consistent(s, h) && runtime < |s.runtimes| && AllDeliverable(s, runtime, bs, platform, deployment)
    ensures MonitoringIsFixed(s, bs, platform, deployment, h)
            <==> MonitoringSettled(Showing(s, runtime), Fresh(s, bs))
  {
    var x, news := Showing(s, runtime), Fresh(s, bs);
    if MonitoringSettled(x, news) {
      forall cs | SameHeartbeats(cs, bs)
        ensures Deliver(s, cs, platform, deployment, h).component.monitoring
             == Deliver(s, bs, platform, deployment, h).component.monitoring
      {
        SettledIsFixed(s, runtime, bs, cs, platform, deployment, h);
      }
    }
    if MonitoringIsFixed(s, bs, platform, deployment, h) {
      FixedIsSettled(s, runtime, bs, platform, deployment, h);
    }
  }

  lemma FixedIsSettled(s: State, runtime: nat, bs: seq<Heartbeat>, platform: nat, deployment: nat, h: EventHash)
    requires Consistent(s, h) && runtime < |s.runtimes| && AllDeliverable(s, runtime, bs, platform, deployment)
    requires MonitoringIsFixed(s, bs, platform, deployment, h)
    ensures MonitoringSettled(Showing(s, runtime), Fresh(s, bs))
  {
    var x, news := Showing(s, runtime), Fresh(s, bs);
    forall t | IsTop(x, news, t)
      ensures Deliver(s, bs, platform, deployment, h).component.monitoring == Next(x, t).monitoring
    {
      FixedByTop(s, runtime, bs, t, platform, deployment, h);
    }
    forall t, y | IsTop(x, news, t) && CanSwitch(x, news, y, t)
      ensures Deliver(s, bs, platform, deployment, h).component.monitoring == MonitoringOf(y.ready)
    {
      FixedBySwitch(s, runtime, bs, y, t, platform, deployment, h);
    }
  }

  lemma SettleTwo(x: Shown, a: Heartbeat, b: Heartbeat)
    ensures Settle(x, [a, b]) == Next(Next(x, a), b)
  {
    assert [] + [a] == [a] && [a] + [b] == [a, b];
    SettleAppend(x, [], a);
    SettleAppend(x, [a], b);
  }

  lemma NewOnesSettle(
      s: State, runtime: nat, bs: seq<Heartbeat>, platform: nat, deployment: nat, h: EventHash)
    requires Consistent(s, h) && runtime < |s.runtimes| && AllDeliverable(s, runtime, bs, platform, deployment)
    requires forall b :: b in bs ==> !Known(s, KeyOf(b))
    ensures Deliver(s, bs, platform, deployment, h).component.monitoring == Settle(Showing(s, runtime), bs).monitoring
  {
    FreshOfNew(s, bs);
    DeliverSettles(s, runtime, bs, platform, deployment, h);
  }

  /** The monitoring state after `a` and the newer `b` is the same in both orders. */
  predicate OrdersAgree(x: Shown, a: Heartbeat, b: Heartbeat) {
    && (b.operational == x.operational || (a.operational == b.operational ==> a.ready == b.ready))
    && (b.operational == x.operational && a.operational != b.operational ==> x.monitoring == MonitoringOf(b.ready))
  }

  lemma SettleBothWays(x: Shown, a: Heartbeat, b: Heartbeat)
    requires x.sequence < a.sequence < b.sequence
    ensures Settle(x, [a, b]).monitoring == Settle(x, [b, a]).monitoring <==> OrdersAgree(x, a, b)
  {
    SettleTwo(x, a, b);
    SettleTwo(x, b, a);
  }

  /** Two newer heartbeats leave the same monitoring state in both orders exactly under these two conditions. */
  lemma TwoOrdersAgreeExactly(s: State, a: Heartbeat, b: Heartbeat, platform: nat, deployment: nat, h: EventHash)
    requires Consistent(s, h) && Deliverable(s, a, platform, deployment) && Deliverable(s, b, platform, deployment)
    requires a.runtime == b.runtime && s.runtimes[a.runtime].heartbeatSequence < a.sequence < b.sequence
    requires !Known(s, KeyOf(a)) && !Known(s, KeyOf(b))
    ensures Deliver(s, [a, b], platform, deployment, h).component.monitoring
            == Deliver(s, [b, a], platform, deployment, h).component.monitoring
            <==> OrdersAgree(Showing(s, a.runtime), a, b)
  {
    var x := Showing(s, a.runtime);
    NewOnesSettle(s, a.runtime, [a, b], platform, deployment, h);
    NewOnesSettle(s, a.runtime, [b, a], platform, deployment, h);
    SettleBothWays(x, a, b);
  }

  /** For one, a ready and an unready heartbeat that report the same change. */
  lemma MonitoringDependsOnOrder(s: State, a: Heartbeat, b: Heartbeat, platform: nat, deployment: nat, h: EventHash)
    requires Consistent(s, h) && Deliverable(s, a, platform, deployment) && Deliverable(s, b, platform, deployment)
    requires a.runtime == b.runtime && s.runtimes[a.runtime].heartbeatSequence < a.sequence < b.sequence
    requires !Known(s, KeyOf(a)) && !Known(s, KeyOf(b))
    requires a.operational == b.operational != s.component.operational && a.ready && !b.ready
    ensures Deliver(s, [a, b], platform, deployment, h).component.monitoring
            != Deliver(s, [b, a], platform, deployment, h).component.monitoring
  {
    TwoOrdersAgreeExactly(s, a, b, platform, deployment, h);
  }

  // ---------------------------------------------------------------------------
  // What each operation decides and writes
  // ---------------------------------------------------------------------------

  ghost predicate NewKey(s: State, key: EventKey) {
    forall i :: 0 <= i < |s.events| ==> s.events[i].key != key
  }

  /** The event is appended under the next sequence, linked to the current head. */
  ghost predicate Audits(s: State, t: State, key: EventKey, digest: Hash, h: EventHash) {
    var next := s.stream.last + 1;
    var eventHash := h(s.stream.currentHash, next, digest);
    && t.events == s.events + [Event(next, key, digest, s.stream.currentHash, eventHash)]
    && t.stream.last == next && t.stream.currentHash == eventHash
    && t.stream.first == if s.stream.first == 0 then next else s.stream.first
  }

  /** A new key extends the stream; a known one is a duplicate if and only if its payload digest is the recorded one. */
  lemma AuditDecidesExactly(s: State, key: EventKey, digest: Hash, h: EventHash, n: nat)
    requires ChainOk(s, h)
    ensures var a := AppendAudit(s, key, digest, h);
            && (a.Appended? <==> NewKey(s, key))
            && (a.Appended? ==> Audits(s, s.(stream := a.stream, events := a.events), key, digest, h))
            && (n < |s.events| && s.events[n].key == key
                ==> a == if s.events[n].payloadDigest == digest then Duplicate else Conflict)
  {
  }

  /** The lifecycle moves the row guard lets through. */
  const LIFECYCLE_MOVES := {
    (DRAFT, REVIEW), (DRAFT, RETIRED), (REVIEW, DRAFT), (REVIEW, APPROVED), (REVIEW, RETIRED), (APPROVED, ACTIVE),
    (APPROVED, RETIRED), (ACTIVE, SUSPENDED), (ACTIVE, QUARANTINED), (ACTIVE, RETIRED), (SUSPENDED, ACTIVE),
    (SUSPENDED, QUARANTINED), (SUSPENDED, RETIRED), (QUARANTINED, SUSPENDED), (QUARANTINED, ACTIVE),
    (QUARANTINED, RETIRED), (RETIRED, DEREGISTERED)}

  /** And the activation moves. */
  const ACTIVATION_MOVES := {
    (INACTIVE, READY), (READY, READY_FOR_ACTIVATION), (READY_FOR_ACTIVATION, ENABLE_REQUESTED),
    (ENABLE_REQUESTED, ACTIVATED), (ENABLE_REQUESTED, BLOCKED), (ACTIVATED, DISABLE_REQUESTED),
    (DISABLE_REQUESTED, INACTIVE), (DISABLE_REQUESTED, DISABLE_UNCONFIRMED), (DISABLE_UNCONFIRMED, INACTIVE),
    (DISABLE_UNCONFIRMED, ACTIVATED), (DISABLE_UNCONFIRMED, BLOCKED), (READY, BLOCKED),
    (READY_FOR_ACTIVATION, BLOCKED), (BLOCKED, INACTIVE), (BLOCKED, READY), (BLOCKED, READY_FOR_ACTIVATION)}

  /** Every pointer of an effective component is set, and it is enabled. */
  ghost predicate Effective(c: Component) {
    && c.revision.Some? && c.release.Some? && c.bindingSet.Some? && c.activationEpoch > 0
    && c.enabled && c.activation == ACTIVATED
  }

  /** An update passes if and only if it starts before deregistration, follows the tables and keeps the authority. */
  lemma UpdateDecidesExactly(s: State, c: Component)
    ensures var r := Update(s, c);
            var b := s.component;
            && (r.Done?
                <==> && b.lifecycle != DEREGISTERED
                     && (c.lifecycle == b.lifecycle || (b.lifecycle, c.lifecycle) in LIFECYCLE_MOVES)
                     && (c.activation == b.activation || (b.activation, c.activation) in ACTIVATION_MOVES)
                     && (c.lifecycle == ACTIVE ==> Effective(c))
                     && (c.lifecycle in {RETIRED, DEREGISTERED} ==> c.activation != ACTIVATED && !c.enabled)
                     && (c.enabled ==> c.activation == ACTIVATED))
            && (r.Done?
                ==> r.state == s.(component := c.(stateVersion := b.stateVersion + 1,
                                                  eventSequence := b.eventSequence + 1)))
            && (!r.Done? ==> r == Rejected(GuardRefused))
  {
  }

  /** The heartbeat speaks for the component's current release, bindings and epoch, and for this very runtime. */
  ghost predicate SpeaksFor(s: State, b: Heartbeat, platform: nat, deployment: nat) {
    && b.runtime < |s.runtimes| && s.component.release == Some(b.release)
    && s.component.bindingSet == Some(b.bindingSet) && s.component.activationEpoch == b.activationEpoch
    && var r := s.runtimes[b.runtime];
       r == Runtime(b.release, b.bindingSet, b.generation, b.activationEpoch, platform, deployment,
                    r.heartbeatSequence, r.degraded)
  }

  /** A heartbeat needs matching code, a sequence, and a key that is new or carries the digest recorded for it. */
  lemma BeatDecidesExactly(s: State, b: Heartbeat, platform: nat, deployment: nat, h: EventHash, n: nat)
    requires Consistent(s, h)
    ensures var r := Beat(s, b, platform, deployment, h);
            var key := HeartbeatKey(b.generation, b.sequence);
            && (r == Rejected(TargetInvalid) <==> !b.codeMatches || b.sequence == 0)
            && (b.codeMatches && b.sequence > 0 && n < |s.events| && s.events[n].key == key
                ==> r == if s.events[n].payloadDigest == b.digest then Done(s) else Rejected(DigestConflict))
            && (b.codeMatches && b.sequence > 0 && NewKey(s, key) ==> r.Done?)
  {
  }

  /**
   A new one is always recorded.  Only if it speaks for a runtime and is newer than all that runtime reported does it
   move anything: the runtime's sequence and, for good, its degradation, and the component when its state changed.
  */
  lemma BeatWritesExactly(s: State, b: Heartbeat, platform: nat, deployment: nat, h: EventHash)
    requires Consistent(s, h) && b.codeMatches && b.sequence > 0 && NewKey(s, HeartbeatKey(b.generation, b.sequence))
    ensures Beat(s, b, platform, deployment, h).Done?
    ensures var t := Beat(s, b, platform, deployment, h).state;
            var moves := SpeaksFor(s, b, platform, deployment) && b.sequence > s.runtimes[b.runtime].heartbeatSequence;
            && Audits(s, t, HeartbeatKey(b.generation, b.sequence), b.digest, h)
            && t.barrierClosed == s.barrierClosed && t.pendingAdmissions == s.pendingAdmissions
            && (!moves ==> t.runtimes == s.runtimes && t.component == s.component)
            && (moves
                ==> var r := s.runtimes[b.runtime];
                    && t.runtimes == s.runtimes[b.runtime := Runtime(
                         r.release, r.bindingSet, r.generation, r.activationEpoch, r.platform, r.deployment,
                         b.sequence, if b.ready then r.degraded else true)]
                    && (b.operational == s.component.operational ==> t.component == s.component)
                    && (b.operational != s.component.operational
                        ==> t.component == s.component.(
                              operational := b.operational, monitoring := if b.ready then MON_HEALTHY else MON_DEGRADED,
                              stateVersion := s.component.stateVersion + 1,
                              eventSequence := s.component.eventSequence + 1)))
  {
  }

  /** The observation speaks for the component's current release, bindings and epoch, and for this runtime's lineage. */
  ghost predicate ReportsOn(s: State, o: Observation) {
    && o.runtime < |s.runtimes| && s.component.release == Some(o.release)
    && s.component.bindingSet == Some(o.bindingSet) && s.component.activationEpoch == o.activationEpoch
    && s.runtimes[o.runtime].release == o.release && s.runtimes[o.runtime].generation == o.generation
    && s.runtimes[o.runtime].activationEpoch == o.activationEpoch
  }

  /** The one column a projection sets. */
  ghost predicate Sets(p: Projection, c: Component, d: Component) {
    && (p.ToOperational? ==> d == c.(operational := p.o)) && (p.ToMonitoring? ==> d == c.(monitoring := p.m))
    && (p.ToRecertification? ==> d == c.(recertification := p.r)) && (p.NoProjection? ==> d == c)
  }

  lemma ReportDecidesExactly(s: State, o: Observation, h: EventHash, n: nat)
    requires Consistent(s, h)
    ensures var r := Report(s, o, h);
            var key := StateKey(o.generation, o.sequence, o.name);
            && (r == Rejected(StateContract) <==> !o.contractHolds)
            && (o.contractHolds && n < |s.events| && s.events[n].key == key
                ==> r == if s.events[n].payloadDigest == o.digest then Done(s) else Rejected(DigestConflict))
            && (o.contractHolds && NewKey(s, key) ==> r.Done?)
  {
    if ObservationCurrent(s, o) { ProjectionPasses(s, o.projection); }
  }

  /** A state observation is always recorded, and sets its column if it speaks for the runtime and changes it. */
  lemma ReportWritesExactly(s: State, o: Observation, h: EventHash)
    requires Consistent(s, h) && o.contractHolds && NewKey(s, StateKey(o.generation, o.sequence, o.name))
    ensures Report(s, o, h).Done?
    ensures var t := Report(s, o, h).state;
            && Audits(s, t, StateKey(o.generation, o.sequence, o.name), o.digest, h)
            && t.runtimes == s.runtimes && t.barrierClosed == s.barrierClosed
            && t.pendingAdmissions == s.pendingAdmissions
            && var wanted := t.component.(stateVersion := s.component.stateVersion,
                                          eventSequence := s.component.eventSequence);
               && (ReportsOn(s, o) ==> Sets(o.projection, s.component, wanted))
               && (!ReportsOn(s, o) ==> wanted == s.component)
               && t.component.stateVersion == s.component.stateVersion + (if wanted == s.component then 0 else 1)
               && t.component.eventSequence == s.component.eventSequence + (if wanted == s.component then 0 else 1)
  {
    if ObservationCurrent(s, o) { ProjectionPasses(s, o.projection); }
  }

  lemma ProjectionPasses(s: State, p: Projection)
    requires Checks(s.component) && s.component.lifecycle != DEREGISTERED
    ensures Update(s, Project(s.component, p)).Done?
  {
  }

  /** A command needs the current version and a component that is not deregistered. */
  lemma CommandRefusesInOrder(
      s: State, command: Command, expected: Option<nat>, operation: nat, digest: Hash, h: EventHash)
    ensures var r := Execute(s, command, expected, operation, digest, h);
            var current := expected == Some(s.component.stateVersion);
            && (r == Rejected(VersionConflict) <==> !current)
            && (r == Rejected(TerminalImmutable) <==> current && s.component.lifecycle == DEREGISTERED)
  {
  }

  /** The refusals of a current command on a component that is not deregistered. */
  lemma CommandNamesRefusal(s: State, command: Command, operation: nat, digest: Hash, h: EventHash)
    requires s.component.lifecycle != DEREGISTERED && NewOperation(s, operation)
    ensures var r := Execute(s, command, Some(s.component.stateVersion), operation, digest, h);
            var c := s.component;
            var ready := c.activation == ACTIVATED && c.enabled;
            && (r == Rejected(StateContract)
                <==> match command
                     case Suspend => c.lifecycle != ACTIVE
                     case Quarantine => c.lifecycle !in {ACTIVE, SUSPENDED}
                     case RestoreSuspended => c.lifecycle != QUARANTINED
                     case RestoreActive(_) => c.lifecycle != SUSPENDED
                     case Recertify(_) => c.lifecycle != QUARANTINED
                     case Deregister(_) => c.lifecycle != RETIRED
                     case PublishRevision(empty) => c.lifecycle !in {DRAFT, REVIEW} || empty)
            && (r == Rejected(NotReady)
                <==> || (command.RestoreActive? && c.lifecycle == SUSPENDED && !(ready && command.ready))
                     || (command.Recertify? && c.lifecycle == QUARANTINED && !(ready && command.ready)))
            && (r == Rejected(ClosureIncomplete)
                <==> command.Deregister? && c.lifecycle == RETIRED
                     && !(&& c.revision == c.release == c.bindingSet == None && c.activationEpoch == 0
                          && c.activation != ACTIVATED && !c.enabled && !c.routed
                          && command.inventoryClear && s.pendingAdmissions == 0))
  {
    NewOperationIsNoConflict(s, operation, digest, h);
  }

  lemma NewOperationIsNoConflict(s: State, operation: nat, digest: Hash, h: EventHash)
    requires NewOperation(s, operation)
    ensures forall to: Lifecycle, closed: bool ::
              AppendAudit(Barrier(s, closed), LifecycleKey(operation, to), digest, h).Appended?
  {
    forall to: Lifecycle, closed: bool
      ensures AppendAudit(Barrier(s, closed), LifecycleKey(operation, to), digest, h).Appended?
    {
      assert NewKey(s, LifecycleKey(operation, to));
      assert Find(s.events, LifecycleKey(operation, to)) == |s.events|;
    }
  }

  /** A component is registered as a draft, inactive and without any pointer, route or runtime. */
  lemma RegistersExactly()
    ensures var s := Registered();
            && s.component.lifecycle == DRAFT && s.component.activation == INACTIVE && PointersCleared(s.component)
            && s.component.operational == UNKNOWN && s.component.monitoring == NOT_CONFIGURED
            && s.component.recertification == NOT_DUE && s.events == [] && s.runtimes == [] && !s.barrierClosed
  {
  }

  /** Where a command may start. */
  ghost predicate MayStart(s: State, command: Command) {
    var c := s.component;
    match command
    case Suspend => c.lifecycle == ACTIVE
    case Quarantine => c.lifecycle in {ACTIVE, SUSPENDED}
    case RestoreSuspended => c.lifecycle == QUARANTINED
    case RestoreActive(ready) => c.lifecycle == SUSPENDED && ready && Effective(c)
    case Recertify(ready) => c.lifecycle == QUARANTINED && ready && Effective(c)
    case Deregister(clear) =>
      && c.lifecycle == RETIRED && clear && s.pendingAdmissions == 0
      && c.revision == c.release == c.bindingSet == None && c.activationEpoch == 0
      && c.activation != ACTIVATED && !c.enabled && !c.routed
    case PublishRevision(empty) => c.lifecycle in {DRAFT, REVIEW} && !empty
  }

  ghost predicate NewOperation(s: State, operation: nat) {
    forall to: Lifecycle :: NewKey(s, LifecycleKey(operation, to))
  }

  lemma NewOperationTransits(s: State, c: Component, operation: nat, digest: Hash, h: EventHash)
    requires NewKey(s, LifecycleKey(operation, c.lifecycle))
    ensures var a := AppendAudit(s, LifecycleKey(operation, c.lifecycle), digest, h);
            && a.Appended?
            && Audits(s, s.(stream := a.stream, events := a.events), LifecycleKey(operation, c.lifecycle), digest, h)
            && Transition(s, c, operation, digest, h) == Update(s.(stream := a.stream, events := a.events), c)
  {
    assert Find(s.events, LifecycleKey(operation, c.lifecycle)) == |s.events|;
  }

  /** What a transition to `c` leaves: the row, the event and the barrier, and nothing else. */
  ghost predicate Transits(
      s: State, r: Result, c: Component, closed: bool, operation: nat, digest: Hash, h: EventHash) {
    && r.Done? && Audits(s, r.state, LifecycleKey(operation, c.lifecycle), digest, h)
    && r.state.component == c.(stateVersion := s.component.stateVersion + 1,
                               eventSequence := s.component.eventSequence + 1)
    && r.state.runtimes == s.runtimes && r.state.pendingAdmissions == s.pendingAdmissions
    && r.state.barrierClosed == closed
  }

  lemma TransitionWrites(s: State, c: Component, closed: bool, operation: nat, digest: Hash, h: EventHash)
    requires NewKey(s, LifecycleKey(operation, c.lifecycle)) && Update(s, c).Done?
    ensures Transits(s, Transition(Barrier(s, closed), c, operation, digest, h), c, closed, operation, digest, h)
  {
    NewOperationTransits(Barrier(s, closed), c, operation, digest, h);
  }

  lemma TransitionRefused(s: State, c: Component, closed: bool, operation: nat, digest: Hash, h: EventHash)
    requires NewKey(s, LifecycleKey(operation, c.lifecycle)) && !Update(s, c).Done?
    ensures Transition(Barrier(s, closed), c, operation, digest, h) == Rejected(GuardRefused)
  {
    NewOperationTransits(Barrier(s, closed), c, operation, digest, h);
  }

  /** What the row becomes, with the counters left out. */
  ghost function Target(command: Command, c: Component): Component {
    match command
    case Suspend => c.(lifecycle := SUSPENDED, operational := MAINTENANCE)
    case Quarantine => c.(lifecycle := QUARANTINED, operational := OP_QUARANTINED, recertification := DUE)
    case RestoreSuspended => c.(lifecycle := SUSPENDED, operational := MAINTENANCE)
    case RestoreActive(_) => c.(lifecycle := ACTIVE, operational := HEALTHY)
    case Recertify(_) => c.(lifecycle := ACTIVE, operational := HEALTHY, recertification := PASSED)
    case Deregister(_) => c.(lifecycle := DEREGISTERED)
    case PublishRevision(_) => c.(lifecycle := DRAFT)
  }

  /**
   A new operation at the current version is executed if and only if its command may start there.  Only the two that
   lead to ACTIVE open the admission barrier, and publishing a revision leaves barrier and stream alone.
  */
  lemma CommandDecidesExactly(s: State, command: Command, operation: nat, digest: Hash, h: EventHash)
    requires Consistent(s, h) && s.component.lifecycle != DEREGISTERED && NewOperation(s, operation)
    ensures var r := Execute(s, command, Some(s.component.stateVersion), operation, digest, h);
            && (r.Done? <==> MayStart(s, command))
            && (r.Done? && !command.PublishRevision?
                ==> Transits(s, r, Target(command, s.component), !command.RestoreActive? && !command.Recertify?,
                             operation, digest, h))
            && (r.Done? && command.PublishRevision?
                ==> r.state == s.(component := s.component.(lifecycle := DRAFT,
                                                            stateVersion := s.component.stateVersion + 1,
                                                            eventSequence := s.component.eventSequence + 1)))
  {
    var c := Target(command, s.component);
    var closed := !command.RestoreActive? && !command.Recertify?;
    if Update(s, c).Done? {
      TransitionWrites(s, c, closed, operation, digest, h);
    } else {
      TransitionRefused(s, c, closed, operation, digest, h);
    }
  }
}
