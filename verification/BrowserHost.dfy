/**
 The browser host process: the only place where a browser action really happens.

 The host keeps one context per session and accepts a frame only under the
 identity, lease and action fence it holds for that context.  Every accepted
 ACTION frame leaves one entry in `executed`, which stands for the foreign
 effect.  A context gets a fresh incarnation number when it is stored, so that
 "inside one host context" can be said exactly.
 */
module BrowserHost {

  datatype Identity = Identity(
    sessionId: nat, hostGeneration: nat, contextGeneration: nat, pageId: nat,
    pageGeneration: nat, frameId: nat, documentId: nat, documentEpoch: nat)

  datatype Lease = Lease(leaseId: nat, fencingToken: nat, expiresAt: int)

  /** `descriptorValid` is the verdict of the action registry on the frame's own fields. */
  datatype Request =
    | Status
    | Attach(identity: Identity, lease: Lease)
    | Synchronize(identity: Identity, lease: Lease)
    | Action(identity: Identity, lease: Lease, actionId: nat, actionFence: nat, descriptorValid: bool)
    | Observe(identity: Identity, lease: Lease)
    | Close(identity: Identity, lease: Lease)

  datatype Error =
    | ContextExists | ContextMissing | IdentityStale | LeaseStale
    | ActionFenceStale | DescriptorInvalid | OriginDenied

  datatype Reply = Accepted | AlreadyClosed | Refused(error: Error)

  datatype Context = Context(incarnation: nat, identity: Identity, lease: Lease, lastActionFence: nat)

  /** An effect: in which context, under which lease token, and for which action and fence. */
  datatype Executed = Executed(incarnation: nat, fencingToken: nat, actionId: nat, actionFence: nat)

  datatype Host = Host(contexts: map<nat, Context>, nextIncarnation: nat, executed: seq<Executed>)

  const EMPTY_HOST := Host(map[], 1, [])

  /**
   Something that happens at the host.  ATTACH awaits the browser between its
   existence check (a `Receive`) and the moment the context is stored
   (`AttachStored`), so another ATTACH can slip in between; a page that closes
   removes whatever context its session has (`PageClosed`).
   */
  datatype Event =
    | Receive(request: Request, now: int, originAllowed: bool)
    | AttachStored(identity: Identity, lease: Lease)
    | PageClosed(sessionId: nat)

  predicate LeaseCurrent(held: Lease, shown: Lease, now: int) {
    held.leaseId == shown.leaseId && held.fencingToken == shown.fencingToken && now < shown.expiresAt
  }

  /** `current`: the context a frame may act on, or why it may not. */
  function Authorize(host: Host, identity: Identity, lease: Lease, now: int): Reply {
    if identity.sessionId !in host.contexts then Refused(ContextMissing)
    else
      var held := host.contexts[identity.sessionId];
      if held.identity != identity then Refused(IdentityStale)
      else if !LeaseCurrent(held.lease, lease, now) then Refused(LeaseStale)
      else Accepted
  }

  /** Whether an ACTION frame reaches the page, and if not, why. */
  function AdmitAction(host: Host, r: Request, now: int, originAllowed: bool): Reply
    requires r.Action?
  {
    var authority := Authorize(host, r.identity, r.lease, now);
    if authority != Accepted then authority
    else if r.actionFence <= host.contexts[r.identity.sessionId].lastActionFence then Refused(ActionFenceStale)
    else if !r.descriptorValid then Refused(DescriptorInvalid)
    else if !originAllowed then Refused(OriginDenied)
    else Accepted
  }

  function RunAction(host: Host, r: Request): Host
    requires r.Action? && r.identity.sessionId in host.contexts
  {
    var sid := r.identity.sessionId;
    var held := host.contexts[sid];
    host.(contexts := host.contexts[sid := held.(lastActionFence := r.actionFence)],
          executed := host.executed + [Executed(held.incarnation, r.lease.fencingToken, r.actionId, r.actionFence)])
  }

  function Handle(host: Host, r: Request, now: int, originAllowed: bool): (Host, Reply) {
    match r
    case Status => (host, Accepted)
    case Attach(identity, lease) =>
      (host, if identity.sessionId in host.contexts then Refused(ContextExists) else Accepted)
    case Synchronize(identity, lease) =>
      var sid := identity.sessionId;
      if sid !in host.contexts then (host, Refused(ContextMissing))
      else if host.contexts[sid].lease.fencingToken > lease.fencingToken then (host, Refused(LeaseStale))
      else (host.(contexts := host.contexts[sid := host.contexts[sid].(identity := identity, lease := lease)]),
         Accepted)
    case Action(_, _, _, _, _) =>
      var verdict := AdmitAction(host, r, now, originAllowed);
      if verdict == Accepted then (RunAction(host, r), Accepted) else (host, verdict)
    case Observe(identity, lease) =>
      (host, Authorize(host, identity, lease, now))
    case Close(identity, lease) =>
      if identity.sessionId !in host.contexts then (host, AlreadyClosed)
      else
        var verdict := Authorize(host, identity, lease, now);
        (if verdict == Accepted then host.(contexts := host.contexts - {identity.sessionId}) else host, verdict)
  }

  function StoreContext(host: Host, identity: Identity, lease: Lease): Host {
    host.(contexts := host.contexts[identity.sessionId := Context(host.nextIncarnation, identity, lease, 0)],
          nextIncarnation := host.nextIncarnation + 1)
  }

  function Step(host: Host, e: Event): Host {
    match e
    case Receive(request, now, originAllowed) => Handle(host, request, now, originAllowed).0
    case AttachStored(identity, lease) => StoreContext(host, identity, lease)
    case PageClosed(sid) => host.(contexts := host.contexts - {sid})
  }

  function Run(host: Host, events: seq<Event>): Host
    decreases |events|
  {
    if events == [] then host else Run(Step(host, events[0]), events[1..])
  }

  // ---------------------------------------------------------------------------
  // The server itself
  // ---------------------------------------------------------------------------

  class BrowserHostProtocolServer {
    var contexts: map<nat, Context>
    var nextIncarnation: nat
    var executed: seq<Executed>

    ghost function State(): Host
      reads this
    {
      Host(contexts, nextIncarnation, executed)
    }

    constructor ()
      ensures State() == EMPTY_HOST
    {
      contexts, nextIncarnation, executed := map[], 1, [];
    }

    method Current(identity: Identity, lease: Lease, now: int) returns (r: Reply)
      ensures r == Authorize(State(), identity, lease, now)
    {
      if identity.sessionId !in contexts { return Refused(ContextMissing); }
      var managed := contexts[identity.sessionId];
      if managed.identity != identity { return Refused(IdentityStale); }
      if managed.lease.leaseId != lease.leaseId || managed.lease.fencingToken != lease.fencingToken
          || lease.expiresAt <= now {
        return Refused(LeaseStale);
      }
      r := Accepted;
    }

    method HandleRequest(request: Request, now: int, originAllowed: bool) returns (reply: Reply)
      modifies this
      ensures (State(), reply) == Handle(old(State()), request, now, originAllowed)
      ensures State() == Step(old(State()), Receive(request, now, originAllowed))
    {
      if request.Status? { return Accepted; }
      var sid := request.identity.sessionId;
      if request.Attach? {
        if sid in contexts { return Refused(ContextExists); }
        return Accepted;
      }
      if request.Synchronize? {
        if sid !in contexts { return Refused(ContextMissing); }
        var managed := contexts[sid];
        if managed.lease.fencingToken > request.lease.fencingToken { return Refused(LeaseStale); }
        contexts := contexts[sid := managed.(identity := request.identity, lease := request.lease)];
        return Accepted;
      }
      if request.Close? && sid !in contexts { return AlreadyClosed; }
      reply := Current(request.identity, request.lease, now);
      if reply != Accepted { return; }
      if request.Close? {
        contexts := contexts - {sid};
        return;
      }
      if request.Observe? { return; }
      var managed := contexts[sid];
      if request.actionFence <= managed.lastActionFence { return Refused(ActionFenceStale); }
      if !request.descriptorValid { return Refused(DescriptorInvalid); }
      if !originAllowed { return Refused(OriginDenied); }
      contexts := contexts[sid := managed.(lastActionFence := request.actionFence)];
      executed := executed
        + [Executed(managed.incarnation, request.lease.fencingToken, request.actionId, request.actionFence)];
    }

    method FinishAttach(identity: Identity, lease: Lease)
      modifies this
      ensures State() == StoreContext(old(State()), identity, lease)
      ensures State() == Step(old(State()), AttachStored(identity, lease))
    {
      contexts := contexts[identity.sessionId := Context(nextIncarnation, identity, lease, 0)];
      nextIncarnation := nextIncarnation + 1;
    }
  }

  // ---------------------------------------------------------------------------
  // What each frame does, in terms of the stored contexts
  // ---------------------------------------------------------------------------

  /** The session has a context with just this identity, lease and token, and the shown lease still runs. */
  ghost predicate Usable(host: Host, identity: Identity, lease: Lease, now: int) {
    && identity.sessionId in host.contexts
    && var held := host.contexts[identity.sessionId];
       && held.identity == identity && held.lease.leaseId == lease.leaseId
       && held.lease.fencingToken == lease.fencingToken && now < lease.expiresAt
  }

  /**
   An ACTION is executed if and only if its session has a usable context, its fence is beyond the last one, its
   fields fit the registry and its origin is allowed.  It then leaves one effect and its fence; otherwise nothing.
  */
  lemma ActionRunsExactly(host: Host, r: Request, now: int, originAllowed: bool)
    requires r.Action?
    ensures var (next, reply) := Handle(host, r, now, originAllowed);
            var sid := r.identity.sessionId;
            && (reply == Accepted
                <==> Usable(host, r.identity, r.lease, now) && host.contexts[sid].lastActionFence < r.actionFence
                     && r.descriptorValid && originAllowed)
            && (reply == Accepted
                ==> var held := host.contexts[sid];
                    && next.executed
                       == host.executed + [Executed(held.incarnation, r.lease.fencingToken, r.actionId, r.actionFence)]
                    && next.contexts == host.contexts[sid := Context(held.incarnation, held.identity, held.lease,
                                                                     r.actionFence)]
                    && next.nextIncarnation == host.nextIncarnation)
            && (reply != Accepted ==> next == host)
  {
  }

  /** A refused frame of a missing context, another identity or another lease is told which of them failed first. */
  lemma RefusalNamesFirstFailure(host: Host, r: Request, now: int, originAllowed: bool)
    requires r.Action? || r.Observe?
    ensures var reply := Handle(host, r, now, originAllowed).1;
            var sid := r.identity.sessionId;
            && (reply == Refused(ContextMissing) <==> sid !in host.contexts)
            && (reply == Refused(IdentityStale) <==> sid in host.contexts && host.contexts[sid].identity != r.identity)
            && (reply == Refused(LeaseStale)
                <==> && sid in host.contexts && host.contexts[sid].identity == r.identity
                     && !Usable(host, r.identity, r.lease, now))
            && (r.Action? && Usable(host, r.identity, r.lease, now)
                ==> && (reply == Refused(ActionFenceStale) <==> r.actionFence <= host.contexts[sid].lastActionFence)
                    && (reply == Refused(DescriptorInvalid)
                        <==> host.contexts[sid].lastActionFence < r.actionFence && !r.descriptorValid)
                    && (reply == Refused(OriginDenied)
                        <==> host.contexts[sid].lastActionFence < r.actionFence && r.descriptorValid && !originAllowed))
  {
  }

  /** OBSERVE answers from a usable context only, and changes nothing. */
  lemma ObserveAnswersExactly(host: Host, identity: Identity, lease: Lease, now: int, originAllowed: bool)
    ensures var (next, reply) := Handle(host, Observe(identity, lease), now, originAllowed);
            next == host && (reply == Accepted <==> Usable(host, identity, lease, now))
  {
  }

  /** CLOSE removes a usable context, and only that; a missing one is already closed. */
  lemma CloseRemovesExactly(host: Host, identity: Identity, lease: Lease, now: int, originAllowed: bool)
    ensures var (next, reply) := Handle(host, Close(identity, lease), now, originAllowed);
            var sid := identity.sessionId;
            && (reply == AlreadyClosed <==> sid !in host.contexts)
            && (reply == Accepted <==> Usable(host, identity, lease, now))
            && (reply != Accepted ==> next == host)
            && (reply == Accepted
                ==> && next.executed == host.executed && next.nextIncarnation == host.nextIncarnation
                    && forall s :: s in next.contexts <==> s in host.contexts && s != sid)
            && (forall s :: s in next.contexts ==> s in host.contexts && next.contexts[s] == host.contexts[s])
  {
  }

  /** SYNCHRONIZE gives an existing context the new identity and lease unless the token falls, and keeps its fence. */
  lemma SynchronizeReplacesExactly(host: Host, identity: Identity, lease: Lease, now: int, originAllowed: bool)
    ensures var (next, reply) := Handle(host, Synchronize(identity, lease), now, originAllowed);
            var sid := identity.sessionId;
            && (reply == Refused(ContextMissing) <==> sid !in host.contexts)
            && (reply == Accepted
                <==> sid in host.contexts && host.contexts[sid].lease.fencingToken <= lease.fencingToken)
            && (reply != Accepted ==> next == host && (sid in host.contexts ==> reply == Refused(LeaseStale)))
            && (reply == Accepted
                ==> var held := host.contexts[sid];
                    next == host.(contexts := host.contexts[sid := Context(held.incarnation, identity, lease,
                                                                           held.lastActionFence)]))
  {
  }

  /** ATTACH waits for the browser exactly when its session has no context yet, and STATUS is always answered. */
  lemma AttachWaitsExactly(host: Host, identity: Identity, lease: Lease, now: int, originAllowed: bool)
    ensures Handle(host, Attach(identity, lease), now, originAllowed)
            == (host, if identity.sessionId in host.contexts then Refused(ContextExists) else Accepted)
    ensures Handle(host, Status, now, originAllowed) == (host, Accepted)
  {
  }

  /** A finished ATTACH stores a new context without any fence, and a closed page removes its session's, if any. */
  lemma AttachStoresExactly(host: Host, identity: Identity, lease: Lease)
    ensures var next := StoreContext(host, identity, lease);
            var sid := identity.sessionId;
            && next.contexts == host.contexts[sid := Context(host.nextIncarnation, identity, lease, 0)]
            && next.nextIncarnation == host.nextIncarnation + 1 && next.executed == host.executed
    ensures var next := Step(host, PageClosed(identity.sessionId));
            && next.executed == host.executed && next.nextIncarnation == host.nextIncarnation
            && (forall s :: s in next.contexts <==> s in host.contexts && s != identity.sessionId)
            && forall s :: s in next.contexts ==> next.contexts[s] == host.contexts[s]
  {
  }

  // ---------------------------------------------------------------------------
  // Fencing inside one context
  // ---------------------------------------------------------------------------

  /** Two effects of one context: the fence goes up, and the lease token does not go down. */
  predicate InOrder(earlier: Executed, later: Executed) {
    earlier.actionFence < later.actionFence && earlier.fencingToken <= later.fencingToken
  }

  /** The context remembers at least the fence and the token of the effect. */
  predicate Covers(held: Context, e: Executed) {
    e.actionFence <= held.lastActionFence && e.fencingToken <= held.lease.fencingToken
  }

  /** What the host's own bookkeeping guarantees about the effects it has let through. */
  ghost predicate Fenced(host: Host) {
    && (forall s :: s in host.contexts ==> host.contexts[s].incarnation < host.nextIncarnation)
    && (forall s, t :: s in host.contexts && t in host.contexts
                       && host.contexts[s].incarnation == host.contexts[t].incarnation
          ==> s == t)
    && (forall i :: 0 <= i < |host.executed| ==> host.executed[i].incarnation < host.nextIncarnation)
    && (forall i, s :: 0 <= i < |host.executed| && s in host.contexts
                       && host.executed[i].incarnation == host.contexts[s].incarnation
          ==> Covers(host.contexts[s], host.executed[i]))
    && (forall i, j :: 0 <= i < j < |host.executed| && host.executed[i].incarnation == host.executed[j].incarnation
          ==> InOrder(host.executed[i], host.executed[j]))
  }

  lemma ActionKeepsFenced(host: Host, r: Request)
    requires Fenced(host) && r.Action? && r.identity.sessionId in host.contexts
    requires host.contexts[r.identity.sessionId].lastActionFence < r.actionFence
    requires host.contexts[r.identity.sessionId].lease.fencingToken == r.lease.fencingToken
    ensures Fenced(RunAction(host, r))
  {
    var next := RunAction(host, r);
    assert forall s :: s in next.contexts
                       ==> s in host.contexts && next.contexts[s].incarnation == host.contexts[s].incarnation;
    forall i, j | 0 <= i < j < |next.executed| && next.executed[i].incarnation == next.executed[j].incarnation
      ensures InOrder(next.executed[i], next.executed[j])
    {
      assert next.executed[i] == host.executed[i];
    }
  }

  lemma NewTermsKeepFenced(host: Host, sid: nat, identity: Identity, lease: Lease)
    requires Fenced(host) && sid in host.contexts
    requires host.contexts[sid].lease.fencingToken <= lease.fencingToken
    ensures Fenced(host.(contexts := host.contexts[sid := host.contexts[sid].(identity := identity, lease := lease)]))
  {
  }

  lemma StoreKeepsFenced(host: Host, identity: Identity, lease: Lease)
    requires Fenced(host)
    ensures Fenced(StoreContext(host, identity, lease))
  {
  }

  lemma StepKeepsFenced(host: Host, e: Event)
    requires Fenced(host)
    ensures Fenced(Step(host, e))
    ensures host.executed <= Step(host, e).executed
  {
    match e
    case Receive(request, now, originAllowed) =>
      if request.Action? && AdmitAction(host, request, now, originAllowed) == Accepted {
        ActionKeepsFenced(host, request);
      } else if request.Synchronize? && Handle(host, request, now, originAllowed).1 == Accepted {
        NewTermsKeepFenced(host, request.identity.sessionId, request.identity, request.lease);
      }
    case AttachStored(identity, lease) => StoreKeepsFenced(host, identity, lease);
    case PageClosed(_) =>
  }

  /**
   In every run of the host, whatever frames arrive in whatever order and
   however often, the fences executed inside one context strictly increase and
   the lease tokens they were executed under never decrease.
   */
  lemma {:induction false} RunIsFenced(host: Host, events: seq<Event>)
    requires Fenced(host)
    ensures Fenced(Run(host, events))
    ensures host.executed <= Run(host, events).executed
    ensures var executed := Run(host, events).executed;
            forall i, j :: 0 <= i < j < |executed| && executed[i].incarnation == executed[j].incarnation
                           ==> executed[i].actionFence < executed[j].actionFence
                               && executed[i].fencingToken <= executed[j].fencingToken
    decreases |events|
  {
    if events != [] {
      StepKeepsFenced(host, events[0]);
      RunIsFenced(Step(host, events[0]), events[1..]);
    }
  }

  /** A duplicated or reordered ACTION frame has at most one effect inside one context. */
  lemma FrameRunsAtMostOnce(events: seq<Event>, i: nat, j: nat)
    requires i < |Run(EMPTY_HOST, events).executed| && j < |Run(EMPTY_HOST, events).executed|
    requires var x := Run(EMPTY_HOST, events).executed;
             x[i].incarnation == x[j].incarnation && x[i].actionFence == x[j].actionFence
    ensures i == j
  {
    RunIsFenced(EMPTY_HOST, events);
  }

  lemma StepKeepsTerms(host: Host, e: Event, sid: nat)
    requires sid in host.contexts && sid in Step(host, e).contexts
    requires host.contexts[sid].incarnation < host.nextIncarnation
    requires Step(host, e).contexts[sid].incarnation == host.contexts[sid].incarnation
    ensures host.contexts[sid].lease.fencingToken <= Step(host, e).contexts[sid].lease.fencingToken
    ensures host.contexts[sid].lastActionFence <= Step(host, e).contexts[sid].lastActionFence
    ensures host.nextIncarnation <= Step(host, e).nextIncarnation
  {
  }

  /** As long as a session keeps its context, its lease token and its last fence never go back. */
  lemma {:induction false} TokenNeverDecreases(host: Host, events: seq<Event>, sid: nat)
    requires sid in host.contexts && sid in Run(host, events).contexts
    requires host.contexts[sid].incarnation < host.nextIncarnation
    requires Run(host, events).contexts[sid].incarnation == host.contexts[sid].incarnation
    ensures host.contexts[sid].lease.fencingToken <= Run(host, events).contexts[sid].lease.fencingToken
    ensures host.contexts[sid].lastActionFence <= Run(host, events).contexts[sid].lastActionFence
    decreases |events|
  {
    if events != [] {
      var next := Step(host, events[0]);
      assert host.nextIncarnation <= next.nextIncarnation;
      IncarnationReturnsOnlyIfKept(next, events[1..], sid, host.contexts[sid].incarnation);
      StepKeepsTerms(host, events[0], sid);
      TokenNeverDecreases(next, events[1..], sid);
    }
  }

  /** An incarnation number below the next one is never given out again. */
  lemma {:induction false} IncarnationReturnsOnlyIfKept(host: Host, events: seq<Event>, sid: nat, incarnation: nat)
    requires incarnation < host.nextIncarnation
    requires sid in Run(host, events).contexts && Run(host, events).contexts[sid].incarnation == incarnation
    ensures sid in host.contexts && host.contexts[sid].incarnation == incarnation
    decreases |events|
  {
    if events != [] {
      IncarnationReturnsOnlyIfKept(Step(host, events[0]), events[1..], sid, incarnation);
    }
  }

  /** A context that is gone runs nothing more. */
  lemma {:induction false} GoneRunsNothing(host: Host, events: seq<Event>, incarnation: nat, i: nat)
    requires incarnation < host.nextIncarnation
    requires forall s :: s in host.contexts ==> host.contexts[s].incarnation != incarnation
    requires |host.executed| <= i < |Run(host, events).executed|
    ensures Run(host, events).executed[i].incarnation != incarnation
    decreases |events|
  {
    if events != [] {
      var next := Step(host, events[0]);
      StepOrStays(host, events[0]);
      if i < |next.executed| {
        RunKeepsExecuted(next, events[1..]);
      } else {
        GoneRunsNothing(next, events[1..], incarnation, i);
      }
    }
  }

  /** One event appends at most one effect, which the context it names admits. */
  lemma StepOrStays(host: Host, e: Event)
    ensures var next := Step(host, e);
            || next.executed == host.executed
            || (&& e.Receive? && e.request.Action? && e.request.identity.sessionId in host.contexts
                && var held := host.contexts[e.request.identity.sessionId];
                   && held.lastActionFence < e.request.actionFence
                   && next.executed == host.executed
                   + [Executed(held.incarnation, held.lease.fencingToken, e.request.actionId, e.request.actionFence)])
  {
  }

  lemma {:induction false} RunKeepsExecuted(host: Host, events: seq<Event>)
    ensures host.executed <= Run(host, events).executed
    decreases |events|
  {
    if events != [] {
      StepOrStays(host, events[0]);
      RunKeepsExecuted(Step(host, events[0]), events[1..]);
    }
  }

  /**
   What one context runs from now on, it runs under a token not below the one it holds now and beyond its last
   fence: once a newer lease was synchronized, no frame of a superseded worker runs there.
  */
  lemma {:induction false} SupersededFramesNeverRun(host: Host, events: seq<Event>, sid: nat, i: nat)
    requires Fenced(host) && sid in host.contexts
    requires |host.executed| <= i < |Run(host, events).executed|
    requires Run(host, events).executed[i].incarnation == host.contexts[sid].incarnation
    ensures Run(host, events).executed[i].fencingToken >= host.contexts[sid].lease.fencingToken
    ensures Run(host, events).executed[i].actionFence > host.contexts[sid].lastActionFence
    decreases |events|
  {
    if events != [] {
      var next := Step(host, events[0]);
      StepKeepsFenced(host, events[0]);
      StepOrStays(host, events[0]);
      RunKeepsExecuted(next, events[1..]);
      if i >= |next.executed| {
        if sid in next.contexts && next.contexts[sid].incarnation == host.contexts[sid].incarnation {
          StepKeepsTerms(host, events[0], sid);
          SupersededFramesNeverRun(next, events[1..], sid, i);
        } else {
          GoneStays(host, events[0], sid);
          GoneRunsNothing(next, events[1..], host.contexts[sid].incarnation, i);
        }
      }
    }
  }

  lemma GoneStays(host: Host, e: Event, sid: nat)
    requires Fenced(host) && sid in host.contexts
    requires sid in Step(host, e).contexts ==> Step(host, e).contexts[sid].incarnation != host.contexts[sid].incarnation
    ensures host.contexts[sid].incarnation < Step(host, e).nextIncarnation
    ensures forall s :: s in Step(host, e).contexts
                        ==> Step(host, e).contexts[s].incarnation != host.contexts[sid].incarnation
  {
  }

  /** No fence of the session up to this one is admitted, in this and every further state. */
  predicate Spent(host: Host, sid: nat, fence: nat) {
    sid in host.contexts ==> host.contexts[sid].lastActionFence >= fence
  }

  predicate NoAttach(events: seq<Event>, sid: nat) {
    forall e :: e in events && e.AttachStored? ==> e.identity.sessionId != sid
  }

  lemma {:induction false} SpentStays(host: Host, events: seq<Event>, sid: nat, fence: nat)
    requires Spent(host, sid, fence) && NoAttach(events, sid)
    ensures Spent(Run(host, events), sid, fence)
    decreases |events|
  {
    if events != [] {
      assert events[0] in events;
      SpentStays(Step(host, events[0]), events[1..], sid, fence);
    }
  }

  /** Without another ATTACH of its session, an executed frame is refused for ever, and with it every lower fence. */
  lemma ReplayNeedsAttach(
      host: Host, first: Request, now: int, originAllowed: bool, events: seq<Event>,
      again: Request, later: int, stillAllowed: bool)
    requires first.Action? && AdmitAction(host, first, now, originAllowed) == Accepted
    requires NoAttach(events, first.identity.sessionId)
    requires again.Action? && again.identity.sessionId == first.identity.sessionId
    requires again.actionFence <= first.actionFence
    ensures var next := Run(Step(host, Receive(first, now, originAllowed)), events);
            AdmitAction(next, again, later, stillAllowed).Refused?
  {
    var after := Step(host, Receive(first, now, originAllowed));
    SpentStays(after, events, first.identity.sessionId, first.actionFence);
  }

  /**
   The limit of that guarantee: once a page closes, a replayed ATTACH opens a new
   context whose fence starts at zero, and a replayed ACTION frame runs again.
   */
  lemma ReplayAcrossContextsRunsTwice(identity: Identity, lease: Lease, actionId: nat, fence: nat, now: int)
    requires fence > 0 && now < lease.expiresAt
    ensures var frame := Receive(Action(identity, lease, actionId, fence, true), now, true);
            var attach := AttachStored(identity, lease);
            var host := Run(EMPTY_HOST, [attach, frame, PageClosed(identity.sessionId), attach, frame]);
            host.executed
                == [Executed(1, lease.fencingToken, actionId, fence), Executed(2, lease.fencingToken, actionId, fence)]
  {
    var frame := Receive(Action(identity, lease, actionId, fence, true), now, true);
    var attach := AttachStored(identity, lease);
    var events := [attach, frame, PageClosed(identity.sessionId), attach, frame];
    var h1 := Step(EMPTY_HOST, attach);
    var h2 := Step(h1, frame);
    assert h2.executed == [Executed(1, lease.fencingToken, actionId, fence)];
    var h3 := Step(h2, PageClosed(identity.sessionId));
    var h4 := Step(h3, attach);
    assert h4.contexts[identity.sessionId] == Context(2, identity, lease, 0);
    var h5 := Step(h4, frame);
    assert h5.executed == h2.executed + [Executed(2, lease.fencingToken, actionId, fence)];
    RunFive(EMPTY_HOST, events);
  }

  lemma RunFive(host: Host, e: seq<Event>)
    requires |e| == 5
    ensures Run(host, e) == Step(Step(Step(Step(Step(host, e[0]), e[1]), e[2]), e[3]), e[4])
  {
    assert e[1..][1..] == e[2..] && e[2..][1..] == e[3..] && e[3..][1..] == e[4..] && e[4..][1..] == [];
    assert Run(host, e) == Run(Step(host, e[0]), e[1..]);
    assert Run(Step(host, e[0]), e[1..]) == Run(Step(Step(host, e[0]), e[1]), e[2..]);
    var mid := Step(Step(host, e[0]), e[1]);
    assert Run(mid, e[2..]) == Run(Step(mid, e[2]), e[3..]);
    assert Run(Step(mid, e[2]), e[3..]) == Run(Step(Step(mid, e[2]), e[3]), e[4..]);
    var late := Step(Step(mid, e[2]), e[3]);
    assert e[4..][0] == e[4];
    assert Run(late, e[4..]) == Run(Step(late, e[4]), e[4..][1..]) == Step(late, e[4]);
  }
}
