/**
 The global lock order of the database layer.

 Every transaction asks its own guard before each lock.  The guard knows only
 the last class and key.  Any number of transactions can deadlock in exactly
 one way: two of them hold the same lock shared and both ask to strengthen it.
 With exclusive locks only, that cannot happen.
 */
module LockOrder {

  datatype LockClass =
    | ADVISORY | PLATFORM | DEPLOYMENT | OWNER_CREDENTIAL | ACTIVATION_HEAD | IDEMPOTENCY | ACTIVATION_DOMAIN
    | AGGREGATE | CONCURRENCY | SEQUENCE | CHILD | QUEUE | OUTBOX | INBOX | AUDIT

  function LockClassOrder(c: LockClass): int {
    match c
    case ADVISORY => 10
    case PLATFORM => 20
    case DEPLOYMENT => 21
    case OWNER_CREDENTIAL => 22
    case ACTIVATION_HEAD => 23
    case IDEMPOTENCY => 30
    case ACTIVATION_DOMAIN => 40
    case AGGREGATE => 50
    case CONCURRENCY => 60
    case SEQUENCE => 70
    case CHILD => 80
    case QUEUE => 90
    case OUTBOX => 91
    case INBOX => 92
    case AUDIT => 100
  }

  /** A key is a string of UTF-16 code units, compared unit by unit. */
  type Key = seq<nat>

  datatype Lock = Lock(lockClass: LockClass, key: Key)

  predicate KeyLess(a: Key, b: Key) {
    if b == [] then false
    else if a == [] then true
    else a[0] < b[0] || (a[0] == b[0] && KeyLess(a[1..], b[1..]))
  }

  predicate Less(a: Lock, b: Lock) {
    || LockClassOrder(a.lockClass) < LockClassOrder(b.lockClass)
    || (LockClassOrder(a.lockClass) == LockClassOrder(b.lockClass) && KeyLess(a.key, b.key))
  }

  lemma {:induction false} KeyLessTransitive(a: Key, b: Key, c: Key)
    ensures KeyLess(a, b) && KeyLess(b, c) ==> KeyLess(a, c)
  {
    if a != [] && b != [] && c != [] { KeyLessTransitive(a[1..], b[1..], c[1..]); }
  }

  lemma {:induction false} KeyLessTotal(a: Key, b: Key)
    ensures !(KeyLess(a, b) && KeyLess(b, a))
    ensures !KeyLess(a, b) && !KeyLess(b, a) <==> a == b
  {
    if a != [] && b != [] {
      KeyLessTotal(a[1..], b[1..]);
      assert a == [a[0]] + a[1..] && b == [b[0]] + b[1..];
    }
  }

  /** Code units decide at the first place where the keys differ, and a proper beginning comes first. */
  lemma {:induction false} KeyLessExactly(a: Key, b: Key)
    ensures KeyLess(a, b) <==> exists k: nat :: DiffersFirstAt(a, b, k)
  {
    if a == [] && b != [] {
      assert DiffersFirstAt(a, b, 0);
    } else if a != [] && b != [] {
      KeyLessExactly(a[1..], b[1..]);
      if a[0] < b[0] { assert DiffersFirstAt(a, b, 0); }
      if a[0] == b[0] && KeyLess(a[1..], b[1..]) {
        var k: nat :| DiffersFirstAt(a[1..], b[1..], k);
        FirstDifferenceShifts(a, b, k);
      }
      if exists k: nat :: DiffersFirstAt(a, b, k) {
        var k: nat :| DiffersFirstAt(a, b, k);
        if k > 0 { FirstDifferenceShifts(a, b, k - 1); }
      }
    }
  }

  ghost predicate DiffersFirstAt(a: Key, b: Key, k: nat) {
    && k <= |a| && k < |b| && a[..k] == b[..k] && (k == |a| || a[k] < b[k])
  }

  lemma FirstDifferenceShifts(a: Key, b: Key, k: nat)
    requires a != [] && b != []
    ensures a[0] == b[0] && DiffersFirstAt(a[1..], b[1..], k) <==> DiffersFirstAt(a, b, k + 1)
  {
    if k + 1 <= |a| && k + 1 <= |b| {
      assert a[..k + 1] == [a[0]] + a[1..][..k];
      assert b[..k + 1] == [b[0]] + b[1..][..k];
      if a[..k + 1] == b[..k + 1] {
        assert a[0] == a[..k + 1][0] == b[0];
        assert a[1..][..k] == a[..k + 1][1..] == b[1..][..k];
      }
    }
  }

  /** The lock classes, first to last. */
  const LOCK_CLASSES: seq<LockClass> := [
    ADVISORY, PLATFORM, DEPLOYMENT, OWNER_CREDENTIAL, ACTIVATION_HEAD, IDEMPOTENCY, ACTIVATION_DOMAIN, AGGREGATE,
    CONCURRENCY, SEQUENCE, CHILD, QUEUE, OUTBOX, INBOX, AUDIT]

  /** Of two locks the one of the earlier class comes first, whatever the keys; within a class the keys decide. */
  lemma ClassesDecideFirst(i: nat, j: nat, a: Key, b: Key)
    requires i < |LOCK_CLASSES| && j < |LOCK_CLASSES|
    ensures Less(Lock(LOCK_CLASSES[i], a), Lock(LOCK_CLASSES[j], b)) <==> i < j || (i == j && KeyLess(a, b))
  {
  }

  /** The guard's comparison is a strict total order on locks. */
  lemma LessIsTotalOrder(a: Lock, b: Lock, c: Lock)
    ensures Less(a, b) && Less(b, c) ==> Less(a, c)
    ensures !(Less(a, b) && Less(b, a))
    ensures !Less(a, b) && !Less(b, a) <==> a == b
  {
    KeyLessTransitive(a.key, b.key, c.key);
    KeyLessTotal(a.key, b.key);
  }

  // ---------------------------------------------------------------------------
  // The guard
  // ---------------------------------------------------------------------------

  /** The locks were taken in non-decreasing order; taking the same lock twice is allowed. */
  predicate Ascending(locks: seq<Lock>) {
    forall i, j :: 0 <= i < j < |locks| ==> !Less(locks[j], locks[i])
  }

  predicate Admits(acquired: seq<Lock>, lock: Lock) {
    acquired == [] || !Less(lock, acquired[|acquired| - 1])
  }

  class LockOrderGuard {
    var lastOrder: int
    var lastKey: Key
    var acquired: seq<Lock>

    ghost predicate Valid()
      reads this
    {
      && Ascending(acquired)
      && if acquired == [] then lastOrder == -1 && lastKey == []
         else lastOrder == LockClassOrder(acquired[|acquired| - 1].lockClass) && lastKey == acquired[|acquired| - 1].key
    }

    constructor ()
      ensures Valid() && acquired == []
    {
      lastOrder := -1;
      lastKey := [];
      acquired := [];
    }

    /** False is the LOCK_ORDER_VIOLATION error; remembering only the last lock is enough. */
    method Acquire(lockClass: LockClass, key: Key) returns (ok: bool)
      requires Valid()
      modifies this
      ensures Valid()
      ensures ok <==> Ascending(old(acquired) + [Lock(lockClass, key)])
      ensures acquired == if ok then old(acquired) + [Lock(lockClass, key)] else old(acquired)
    {
      AdmitsKeepsAscending(acquired, Lock(lockClass, key));
      var order := LockClassOrder(lockClass);
      if order < lastOrder || (order == lastOrder && KeyLess(key, lastKey)) {
        return false;
      }
      lastOrder := order;
      lastKey := key;
      acquired := acquired + [Lock(lockClass, key)];
      ok := true;
    }
  }

  lemma AdmitsKeepsAscending(acquired: seq<Lock>, lock: Lock)
    requires Ascending(acquired)
    ensures Admits(acquired, lock) <==> Ascending(acquired + [lock])
  {
    var all := acquired + [lock];
    if acquired != [] {
      var last := acquired[|acquired| - 1];
      assert all[|acquired| - 1] == last && all[|acquired|] == lock;
      if !Less(lock, last) {
        forall i, j | 0 <= i < j < |all| ensures !Less(all[j], all[i]) {
          if j == |acquired| && i < |acquired| - 1 {
            LessIsTotalOrder(lock, acquired[i], last);
            LessIsTotalOrder(last, acquired[i], lock);
            LessIsTotalOrder(lock, last, acquired[i]);
          }
        }
      }
    }
  }

  // ---------------------------------------------------------------------------
  // Transactions
  // ---------------------------------------------------------------------------

  datatype Mode = Share | Exclusive

  datatype Request = Request(lock: Lock, mode: Mode)

  predicate Conflicts(a: Request, b: Request) {
    a.lock == b.lock && (a.mode == Exclusive || b.mode == Exclusive)
  }

  datatype Status = Active | Waiting | Committed | RolledBack

  /** While `Waiting`, the first request of `todo` has passed the guard and is not granted yet. */
  datatype Txn = Txn(held: seq<Request>, todo: seq<Request>, status: Status)

  predicate Unfinished(t: Txn) { t.status == Active || t.status == Waiting }

  function Locks(rs: seq<Request>): (r: seq<Lock>)
    ensures |r| == |rs| && forall i :: 0 <= i < |rs| ==> r[i] == rs[i].lock
  {
    if rs == [] then [] else Locks(rs[..|rs| - 1]) + [rs[|rs| - 1].lock]
  }

  /** What the transaction's guard has recorded. */
  function Acquired(t: Txn): seq<Lock> {
    Locks(t.held) + if t.status == Waiting && t.todo != [] then [t.todo[0].lock] else []
  }

  type System = seq<Txn>

  function Begin(scripts: seq<seq<Request>>): (s: System)
    ensures |s| == |scripts|
    ensures forall i :: 0 <= i < |s| ==> s[i] == Txn([], scripts[i], Active)
  {
    seq(|scripts|, i requires 0 <= i < |scripts| => Txn([], scripts[i], Active))
  }

  predicate HoldsConflict(t: Txn, r: Request) {
    exists k :: 0 <= k < |t.held| && Conflicts(t.held[k], r)
  }

  /** Transaction `i` waits for a lock that transaction `j` holds in a conflicting mode. */
  predicate WaitsFor(s: System, i: nat, j: nat) {
    && i < |s| && j < |s| && i != j
    && s[i].status == Waiting && s[i].todo != [] && HoldsConflict(s[j], s[i].todo[0])
  }

  predicate Blocked(s: System, i: nat) {
    exists j :: 0 <= j < |s| && WaitsFor(s, i, j)
  }

  predicate Enabled(s: System, i: nat) {
    i < |s| && Unfinished(s[i]) && !Blocked(s, i)
  }

  /** Ask the guard, be granted, or commit; a guard violation and a failure release everything. */
  function Advance(s: System, i: nat): System
    requires i < |s|
  {
    var t := s[i];
    match t.status
    case Active =>
      if t.todo == [] then s[i := Txn([], [], Committed)]
      else if !Admits(Acquired(t), t.todo[0].lock) then s[i := Txn([], t.todo, RolledBack)]
      else s[i := t.(status := Waiting)]
    case Waiting =>
      if t.todo == [] || Blocked(s, i) then s
      else s[i := Txn(t.held + [t.todo[0]], t.todo[1..], Active)]
    case Committed => s
    case RolledBack => s
  }

  datatype Op = Proceed(i: nat) | Fail(i: nat)

  function Step(s: System, op: Op): (r: System)
    ensures |r| == |s|
  {
    if op.i >= |s| || !Unfinished(s[op.i]) then s
    else match op
      case Proceed(i) => Advance(s, i)
      case Fail(i) => s[i := Txn([], s[i].todo, RolledBack)]
  }

  function Run(s: System, ops: seq<Op>): (r: System)
    ensures |r| == |s|
    decreases |ops|
  {
    if ops == [] then s else Step(Run(s, ops[..|ops| - 1]), ops[|ops| - 1])
  }

  // ---------------------------------------------------------------------------
  // Strengthening a shared lock
  // ---------------------------------------------------------------------------

  /** Request `n` asks exclusively for a lock that the script took before, but never exclusively. */
  predicate Strengthens(script: seq<Request>, n: nat) {
    && n < |script| && script[n].mode == Exclusive
    && (exists i :: 0 <= i < n && script[i].lock == script[n].lock)
    && (forall i :: 0 <= i < n && script[i].lock == script[n].lock ==> script[i].mode == Share)
  }

  predicate Compatible(a: seq<Request>, b: seq<Request>) {
    forall i, j :: 0 <= i < |a| && 0 <= j < |b| ==> !Conflicts(a[i], b[j])
  }

  /** Two scripts that strengthen the same lock, reach that point past their guards, and can stand there together. */
  predicate Rivals(p: seq<Request>, m: nat, q: seq<Request>, n: nat) {
    && Strengthens(p, m) && Strengthens(q, n) && p[m].lock == q[n].lock
    && Ascending(Locks(p[..m + 1])) && Ascending(Locks(q[..n + 1]))
    && Compatible(p[..m], q[..n])
  }

  ghost predicate NoRivals(scripts: seq<seq<Request>>) {
    forall i, k, m: nat, n: nat :: 0 <= i < |scripts| && 0 <= k < |scripts| && i != k
                                   ==> !Rivals(scripts[i], m, scripts[k], n)
  }

  /** Advisory locks and FOR UPDATE are exclusive: scripts of such locks alone have no rivals. */
  lemma ExclusiveScriptsHaveNoRivals(scripts: seq<seq<Request>>)
    requires forall i, j :: 0 <= i < |scripts| && 0 <= j < |scripts[i]| ==> scripts[i][j].mode == Exclusive
    ensures NoRivals(scripts)
  {
    forall i, k, m: nat, n: nat | 0 <= i < |scripts| && 0 <= k < |scripts| && i != k
      ensures !Rivals(scripts[i], m, scripts[k], n)
    {
      assert !Strengthens(scripts[i], m);
    }
  }

  // ---------------------------------------------------------------------------
  // Invariant
  // ---------------------------------------------------------------------------

  predicate TxnOk(t: Txn) {
    && Ascending(Acquired(t))
    && (t.status == Waiting ==> t.todo != [])
    && (!Unfinished(t) ==> t.held == [])
  }

  /** Conflicting requests are never held by two transactions at once. */
  predicate Exclusion(s: System) {
    forall i, j, k :: 0 <= i < |s| && 0 <= j < |s| && i != j && 0 <= k < |s[i].held|
                      ==> !HoldsConflict(s[j], s[i].held[k])
  }

  predicate Ordered(s: System) {
    (forall i :: 0 <= i < |s| ==> TxnOk(s[i])) && Exclusion(s)
  }

  /** What a transaction holds and what it still asks for make up its script. */
  predicate Follows(s: System, scripts: seq<seq<Request>>) {
    |s| == |scripts| && forall i :: 0 <= i < |s| && Unfinished(s[i]) ==> s[i].held + s[i].todo == scripts[i]
  }

  lemma GrantKeepsExclusion(s: System, i: nat)
    requires Ordered(s) && i < |s| && s[i].status == Waiting && !Blocked(s, i)
    ensures Exclusion(Advance(s, i))
  {
    var r := Advance(s, i);
    var q := s[i].todo[0];
    forall a, b, k | 0 <= a < |r| && 0 <= b < |r| && a != b && 0 <= k < |r[a].held|
        ensures !HoldsConflict(r[b], r[a].held[k]) {
      if a == i && k == |s[i].held| {
        assert !WaitsFor(s, i, b);
      } else if b == i {
        assert !HoldsConflict(s[i], s[a].held[k]);
        assert !WaitsFor(s, i, a);
        assert !Conflicts(s[a].held[k], q);
      } else {
        assert !HoldsConflict(s[b], s[a].held[k]);
      }
    }
  }

  lemma AskKeepsTxn(t: Txn)
    requires TxnOk(t) && t.status == Active && t.todo != [] && Admits(Acquired(t), t.todo[0].lock)
    ensures TxnOk(t.(status := Waiting))
  {
    assert Acquired(t) == Locks(t.held);
    AdmitsKeepsAscending(Locks(t.held), t.todo[0].lock);
  }

  lemma GrantKeepsTxn(t: Txn)
    requires TxnOk(t) && t.status == Waiting
    ensures TxnOk(Txn(t.held + [t.todo[0]], t.todo[1..], Active))
    ensures t.held + [t.todo[0]] + t.todo[1..] == t.held + t.todo
  {
    var r := Txn(t.held + [t.todo[0]], t.todo[1..], Active);
    assert r.held[..|t.held|] == t.held;
    assert Locks(r.held) == Locks(t.held) + [t.todo[0].lock];
    assert Acquired(r) == Acquired(t);
  }

  lemma StepKeepsTxn(s: System, op: Op)
    requires Ordered(s) && op.i < |s| && Unfinished(s[op.i])
    ensures TxnOk(Step(s, op)[op.i]) && Step(s, op) == s[op.i := Step(s, op)[op.i]]
    ensures Unfinished(Step(s, op)[op.i])
        ==> Step(s, op)[op.i].held + Step(s, op)[op.i].todo == s[op.i].held + s[op.i].todo
  {
    var t := s[op.i];
    if op.Proceed? {
      if t.status == Waiting {
        GrantKeepsTxn(t);
      } else if t.todo != [] && Admits(Acquired(t), t.todo[0].lock) {
        AskKeepsTxn(t);
      }
    }
  }

  lemma StepKeepsExclusion(s: System, op: Op)
    requires Ordered(s) && op.i < |s| && Unfinished(s[op.i])
    ensures Exclusion(Step(s, op))
  {
    if op.Proceed? && s[op.i].status == Waiting && !Blocked(s, op.i) {
      GrantKeepsExclusion(s, op.i);
    } else {
      HeldSubsetKeepsExclusion(s, Step(s, op), op.i);
    }
  }

  lemma StepKeepsOrdered(s: System, op: Op, scripts: seq<seq<Request>>)
    requires Ordered(s) && Follows(s, scripts)
    ensures Ordered(Step(s, op)) && Follows(Step(s, op), scripts)
  {
    if op.i < |s| && Unfinished(s[op.i]) {
      StepKeepsTxn(s, op);
      StepKeepsExclusion(s, op);
    }
  }

  lemma HeldSubsetKeepsExclusion(s: System, r: System, i: nat)
    requires Exclusion(s) && i < |s| == |r| && r == s[i := r[i]]
    requires r[i].held == [] || r[i].held == s[i].held
    ensures Exclusion(r)
  {
    forall a, b, k | 0 <= a < |r| && 0 <= b < |r| && a != b && 0 <= k < |r[a].held|
        ensures !HoldsConflict(r[b], r[a].held[k]) {
      assert !HoldsConflict(s[b], s[a].held[k]);
    }
  }

  lemma {:induction false} RunIsOrdered(scripts: seq<seq<Request>>, ops: seq<Op>)
    ensures Ordered(Run(Begin(scripts), ops)) && Follows(Run(Begin(scripts), ops), scripts)
    decreases |ops|
  {
    if ops == [] {
      forall i | 0 <= i < |scripts| ensures [] + scripts[i] == scripts[i] { }
    } else {
      RunIsOrdered(scripts, ops[..|ops| - 1]);
      StepKeepsOrdered(Run(Begin(scripts), ops[..|ops| - 1]), ops[|ops| - 1], scripts);
    }
  }

  // ---------------------------------------------------------------------------
  // What a cycle of waits looks like
  // ---------------------------------------------------------------------------

  function Wanted(t: Txn): Lock
    requires t.todo != []
  {
    t.todo[0].lock
  }

  /** A transaction that is waited for holds the lock, and wants none below it. */
  lemma WantedNeverFalls(s: System, i: nat, j: nat)
    requires Ordered(s) && WaitsFor(s, i, j) && s[j].status == Waiting && s[j].todo != []
    ensures !Less(Wanted(s[j]), Wanted(s[i]))
  {
    var t := s[j];
    var n :| 0 <= n < |t.held| && Conflicts(t.held[n], s[i].todo[0]);
    assert Acquired(t)[n] == t.held[n].lock && Acquired(t)[|t.held|] == Wanted(t);
  }

  /** Blocked on a lock it already holds, a transaction holds it shared and asks for it exclusively. */
  lemma BlockedOnOwnLock(s: System, scripts: seq<seq<Request>>, j: nat, k: nat, n: nat)
    requires Ordered(s) && Follows(s, scripts) && WaitsFor(s, j, k)
    requires n < |s[j].held| && s[j].held[n].lock == Wanted(s[j])
    ensures Strengthens(scripts[j], |s[j].held|) && scripts[j][..|s[j].held|] == s[j].held
    ensures scripts[j][|s[j].held|].lock == Wanted(s[j])
    ensures Ascending(Locks(scripts[j][..|s[j].held| + 1]))
  {
    var t := s[j];
    var h := |t.held|;
    var script := scripts[j];
    assert script == t.held + t.todo;
    assert script[..h] == t.held && script[h] == t.todo[0];
    var m :| 0 <= m < |s[k].held| && Conflicts(s[k].held[m], t.todo[0]);
    forall x | 0 <= x < h && t.held[x].lock == Wanted(t)
      ensures t.held[x].mode == Share && s[k].held[m].mode == Share
    {
      assert !HoldsConflict(s[k], t.held[x]);
      assert !Conflicts(s[k].held[m], t.held[x]);
    }
    assert script[n] == t.held[n];
    assert script[..h + 1] == t.held + [t.todo[0]];
    assert (t.held + [t.todo[0]])[..h] == t.held;
    assert Locks(script[..h + 1]) == Acquired(t);
  }

  /** Two blocked transactions that hold the lock both want are rivals. */
  lemma BlockedPairIsRival(s: System, scripts: seq<seq<Request>>, j: nat, k: nat, l: nat, x: nat, y: nat)
    requires Ordered(s) && Follows(s, scripts) && WaitsFor(s, j, k) && WaitsFor(s, k, l)
    requires Wanted(s[j]) == Wanted(s[k])
    requires x < |s[j].held| && s[j].held[x].lock == Wanted(s[j])
    requires y < |s[k].held| && s[k].held[y].lock == Wanted(s[k])
    ensures Rivals(scripts[j], |s[j].held|, scripts[k], |s[k].held|)
  {
    BlockedOnOwnLock(s, scripts, j, k, x);
    BlockedOnOwnLock(s, scripts, k, l, y);
    forall a, b | 0 <= a < |s[j].held| && 0 <= b < |s[k].held| ensures !Conflicts(s[j].held[a], s[k].held[b]) {
      assert !HoldsConflict(s[j], s[k].held[b]);
    }
  }

  predicate WaitPath(s: System, path: seq<nat>) {
    forall n :: 0 <= n < |path| - 1 ==> WaitsFor(s, path[n], path[n + 1])
  }

  predicate Cycle(s: System, path: seq<nat>) {
    WaitPath(s, path) && |path| >= 2 && path[0] == path[|path| - 1]
  }

  lemma {:induction false} WantedNeverFallsAlong(s: System, path: seq<nat>)
    requires Ordered(s) && WaitPath(s, path) && path != []
    requires forall n :: 0 <= n < |path| ==> path[n] < |s| && s[path[n]].status == Waiting && s[path[n]].todo != []
    ensures !Less(Wanted(s[path[|path| - 1]]), Wanted(s[path[0]]))
    decreases |path|
  {
    var n := |path|;
    if n == 1 {
      LessIsTotalOrder(Wanted(s[path[0]]), Wanted(s[path[0]]), Wanted(s[path[0]]));
    } else {
      var shorter := path[..n - 1];
      forall k | 0 <= k < |shorter| - 1 ensures WaitsFor(s, shorter[k], shorter[k + 1]) {
        assert WaitsFor(s, path[k], path[k + 1]);
      }
      WantedNeverFallsAlong(s, shorter);
      assert WaitsFor(s, path[n - 2], path[n - 2 + 1]);
      WantedNeverFalls(s, path[n - 2], path[n - 1]);
      NotLessIsTransitive(Wanted(s[path[0]]), Wanted(s[path[n - 2]]), Wanted(s[path[n - 1]]));
    }
  }

  lemma NotLessIsTransitive(a: Lock, b: Lock, c: Lock)
    requires !Less(b, a) && !Less(c, b)
    ensures !Less(c, a)
  {
    LessIsTotalOrder(c, a, b);
    LessIsTotalOrder(a, b, c);
    LessIsTotalOrder(b, c, a);
  }

  /** Around a cycle of waits all wanted locks are the same. */
  lemma CycleWantsOneLock(s: System, path: seq<nat>)
    requires Ordered(s) && Cycle(s, path)
    ensures |path| > 2 && WaitsFor(s, path[0], path[1]) && WaitsFor(s, path[1], path[2])
    ensures Wanted(s[path[0]]) == Wanted(s[path[1]])
  {
    var n := |path|;
    assert WaitsFor(s, path[0], path[0 + 1]);
    assert WaitsFor(s, path[1], path[1 + 1]);
    var tail := path[1..];
    forall k | 0 <= k < |tail| - 1 ensures WaitsFor(s, tail[k], tail[k + 1]) {
      assert WaitsFor(s, path[k + 1], path[k + 1 + 1]);
    }
    forall k | 0 <= k < |tail| ensures tail[k] < |s| && s[tail[k]].status == Waiting && s[tail[k]].todo != [] {
      if k + 1 < n - 1 { assert WaitsFor(s, path[k + 1], path[k + 1 + 1]); }
    }
    WantedNeverFallsAlong(s, tail);
    WantedNeverFalls(s, path[0], path[1]);
    LessIsTotalOrder(Wanted(s[path[0]]), Wanted(s[path[1]]), Wanted(s[path[0]]));
  }

  /** The same cycle, entered one transaction later. */
  lemma RotateCycle(s: System, path: seq<nat>) returns (next: seq<nat>)
    requires Cycle(s, path) && |path| > 2
    ensures Cycle(s, next) && |next| == |path| && next[0] == path[1] && next[1] == path[2]
  {
    next := path[1..] + [path[1]];
    assert WaitsFor(s, path[0], path[0 + 1]);
    forall k | 0 <= k < |next| - 1 ensures WaitsFor(s, next[k], next[k + 1]) {
      if k + 1 < |path| - 1 { assert WaitsFor(s, path[k + 1], path[k + 1 + 1]); }
    }
  }

  lemma WaiterIsHolder(s: System, i: nat, j: nat) returns (n: nat)
    requires WaitsFor(s, i, j)
    ensures n < |s[j].held| && s[j].held[n].lock == Wanted(s[i])
  {
    n :| 0 <= n < |s[j].held| && Conflicts(s[j].held[n], s[i].todo[0]);
  }

  /** A cycle of waits contains two rivals. */
  lemma CycleMeansRivals(s: System, scripts: seq<seq<Request>>, path: seq<nat>)
    requires Ordered(s) && Follows(s, scripts) && Cycle(s, path)
    ensures !NoRivals(scripts)
  {
    CycleWantsOneLock(s, path);
    var next := RotateCycle(s, path);
    CycleWantsOneLock(s, next);
    var i, j, k := path[0], path[1], path[2];
    var x := WaiterIsHolder(s, i, j);
    var y := WaiterIsHolder(s, j, k);
    BlockedPairIsRival(s, scripts, j, k, next[2], x, y);
  }

  // ---------------------------------------------------------------------------
  // Deadlock happens exactly between rivals
  // ---------------------------------------------------------------------------

  ghost predicate CanDeadlock(scripts: seq<seq<Request>>) {
    exists ops: seq<Op>, path: seq<nat> :: Cycle(Run(Begin(scripts), ops), path)
  }

  lemma {:induction false} RunConcat(s: System, a: seq<Op>, b: seq<Op>)
    ensures Run(s, a + b) == Run(Run(s, a), b)
    decreases |b|
  {
    if b == [] {
      assert a + b == a;
    } else {
      RunConcat(s, a, b[..|b| - 1]);
      assert (a + b)[..|a + b| - 1] == a + b[..|b| - 1];
    }
  }

  /** The transaction has been granted the first `n` requests of its script. */
  function Granted(script: seq<Request>, n: nat): Txn
    requires n <= |script|
  {
    Txn(script[..n], script[n..], Active)
  }

  predicate OthersCompatible(s: System, i: nat, requests: seq<Request>) {
    forall j, r :: 0 <= j < |s| && j != i && 0 <= r < |requests| ==> !HoldsConflict(s[j], requests[r])
  }

  /** Asking for the next request passes the guard. */
  lemma AskNext(s: System, i: nat, script: seq<Request>, n: nat)
    requires i < |s| && n < |script| && s[i] == Granted(script, n) && Ascending(Locks(script[..n + 1]))
    ensures Step(s, Proceed(i)) == s[i := Txn(script[..n], script[n..], Waiting)]
  {
    var t := s[i];
    assert script[..n + 1][..n] == script[..n];
    assert Locks(script[..n + 1]) == Locks(script[..n]) + [script[n].lock];
    assert Acquired(t) == Locks(script[..n]);
    AscendingFront(Locks(script[..n]), script[n].lock);
  }

  lemma AscendingFront(front: seq<Lock>, lock: Lock)
    requires Ascending(front + [lock])
    ensures Ascending(front) && Admits(front, lock)
  {
    var all := front + [lock];
    forall i, j | 0 <= i < j < |front| ensures !Less(front[j], front[i]) {
      assert all[i] == front[i] && all[j] == front[j];
    }
    AdmitsKeepsAscending(front, lock);
  }

  /** Nobody in the way, the request is granted. */
  lemma GrantNext(s: System, i: nat, script: seq<Request>, n: nat)
    requires i < |s| && n < |script| && s[i] == Txn(script[..n], script[n..], Waiting)
    requires forall j :: 0 <= j < |s| && j != i ==> !HoldsConflict(s[j], script[n])
    ensures Step(s, Proceed(i)) == s[i := Granted(script, n + 1)]
  {
    assert !Blocked(s, i);
    assert script[..n] + [script[n..][0]] == script[..n + 1] && script[n..][1..] == script[n + 1..];
  }

  lemma AskAndGrant(s: System, i: nat, script: seq<Request>, n: nat)
    requires i < |s| && n < |script| && s[i] == Granted(script, n) && Ascending(Locks(script[..n + 1]))
    requires forall j :: 0 <= j < |s| && j != i ==> !HoldsConflict(s[j], script[n])
    ensures Run(s, [Proceed(i), Proceed(i)]) == s[i := Granted(script, n + 1)]
  {
    AskNext(s, i, script, n);
    var u := Step(s, Proceed(i));
    forall j | 0 <= j < |u| && j != i ensures !HoldsConflict(u[j], script[n]) { assert u[j] == s[j]; }
    GrantNext(u, i, script, n);
    RunTwo(s, Proceed(i), Proceed(i));
    assert u[i := Granted(script, n + 1)] == s[i := Granted(script, n + 1)];
  }

  /** With nobody in the way, a transaction climbs to the `n`th request of its script. */
  lemma {:induction false} Climb(s: System, i: nat, script: seq<Request>, n: nat) returns (ops: seq<Op>)
    requires i < |s| && n <= |script| && s[i] == Granted(script, 0) && Ascending(Locks(script[..n]))
    requires OthersCompatible(s, i, script[..n])
    ensures Run(s, ops) == s[i := Granted(script, n)]
    decreases n
  {
    if n == 0 {
      ops := [];
      assert s[i := Granted(script, 0)] == s;
    } else {
      BeforeLast(script, n - 1);
      assert script[..n - 1] == script[..n][..n - 1];
      ops := Climb(s, i, script, n - 1);
      var t := s[i := Granted(script, n - 1)];
      forall j | 0 <= j < |t| && j != i ensures !HoldsConflict(t[j], script[n - 1]) {
        assert t[j] == s[j] && script[..n][n - 1] == script[n - 1];
      }
      AskAndGrant(t, i, script, n - 1);
      RunConcat(s, ops, [Proceed(i), Proceed(i)]);
      ops := ops + [Proceed(i), Proceed(i)];
      assert t[i := Granted(script, n)] == s[i := Granted(script, n)];
    }
  }

  lemma RunTwo(s: System, a: Op, b: Op)
    ensures Run(s, [a, b]) == Step(Step(s, a), b)
  {
    assert [a, b][..1] == [a] && [a][..0] == [];
    assert Run(s, [a]) == Step(s, a);
  }

  /** Both standing before the lock they share, rivals ask for it and block each other. */
  lemma AskTogether(s: System, i: nat, k: nat, p: seq<Request>, m: nat, q: seq<Request>, n: nat)
    requires i < |s| && k < |s| && i != k && Rivals(p, m, q, n)
    requires s[i] == Granted(p, m) && s[k] == Granted(q, n)
    ensures Cycle(Run(s, [Proceed(i), Proceed(k)]), [i, k, i])
  {
    AskNext(s, i, p, m);
    var t := Step(s, Proceed(i));
    AskNext(t, k, q, n);
    var u := Step(t, Proceed(k));
    RunTwo(s, Proceed(i), Proceed(k));
    SharersBlock(u, i, k, p, m, q, n);
    SharersBlock(u, k, i, q, n, p, m);
  }

  /** Rivals climb to the lock they share. */
  lemma RivalsDeadlock(scripts: seq<seq<Request>>, i: nat, k: nat, m: nat, n: nat)
    requires i < |scripts| && k < |scripts| && i != k && Rivals(scripts[i], m, scripts[k], n)
    ensures CanDeadlock(scripts)
  {
    var p, q := scripts[i], scripts[k];
    var s0 := Begin(scripts);
    BeforeLast(p, m);
    BeforeLast(q, n);
    assert s0[i] == Granted(p, 0) && s0[k] == Granted(q, 0);
    var up := Climb(s0, i, p, m);
    var s1 := s0[i := Granted(p, m)];
    forall j, r | 0 <= j < |s1| && j != k && 0 <= r < |q[..n]| ensures !HoldsConflict(s1[j], q[..n][r]) {
      if j == i {
        forall x | 0 <= x < m ensures !Conflicts(p[..m][x], q[..n][r]) { }
      }
    }
    var along := Climb(s1, k, q, n);
    var s2 := s1[k := Granted(q, n)];
    AskTogether(s2, i, k, p, m, q, n);
    RunConcat(s0, up, along);
    RunConcat(s0, up + along, [Proceed(i), Proceed(k)]);
  }

  lemma BeforeLast(script: seq<Request>, n: nat)
    requires n < |script| && Ascending(Locks(script[..n + 1]))
    ensures Ascending(Locks(script[..n]))
  {
    assert script[..n + 1][..n] == script[..n];
    assert Locks(script[..n + 1]) == Locks(script[..n]) + [script[n].lock];
    AscendingFront(Locks(script[..n]), script[n].lock);
  }

  lemma SharersBlock(s: System, i: nat, k: nat, p: seq<Request>, m: nat, q: seq<Request>, n: nat)
    requires i < |s| && k < |s| && i != k && Strengthens(p, m) && Strengthens(q, n) && p[m].lock == q[n].lock
    requires s[i] == Txn(p[..m], p[m..], Waiting) && s[k] == Txn(q[..n], q[n..], Waiting)
    ensures WaitsFor(s, i, k)
  {
    var x :| 0 <= x < n && q[x].lock == q[n].lock;
    assert s[k].held[x] == q[x] && s[i].todo[0] == p[m];
    assert Conflicts(s[k].held[x], s[i].todo[0]);
  }

  /** Any number of transactions can reach a cycle of waits if and only if two of them are rivals. */
  lemma DeadlocksExactly(scripts: seq<seq<Request>>)
    ensures CanDeadlock(scripts) <==> !NoRivals(scripts)
  {
    if CanDeadlock(scripts) {
      var ops: seq<Op>, path: seq<nat> :| Cycle(Run(Begin(scripts), ops), path);
      RunIsOrdered(scripts, ops);
      CycleMeansRivals(Run(Begin(scripts), ops), scripts, path);
    }
    if !NoRivals(scripts) {
      var i, k, m: nat, n: nat :| 0 <= i < |scripts| && 0 <= k < |scripts| && i != k
          && Rivals(scripts[i], m, scripts[k], n);
      RivalsDeadlock(scripts, i, k, m, n);
    }
  }

  /** Without rivals the wait-for graph of every reachable state is acyclic. */
  lemma WaitForIsAcyclic(scripts: seq<seq<Request>>, ops: seq<Op>, path: seq<nat>)
    requires NoRivals(scripts) && WaitPath(Run(Begin(scripts), ops), path) && |path| >= 2
    ensures path[0] != path[|path| - 1]
  {
    DeadlocksExactly(scripts);
    assert !Cycle(Run(Begin(scripts), ops), path);
  }

  // ---------------------------------------------------------------------------
  // One script
  // ---------------------------------------------------------------------------

  /** The guard lets the script come to a request that strengthens a lock. */
  ghost predicate EverStrengthens(script: seq<Request>, lock: Lock) {
    exists n: nat :: StrengthensLock(script, n, lock)
  }

  predicate StrengthensLock(script: seq<Request>, n: nat, lock: Lock) {
    Strengthens(script, n) && script[n].lock == lock && Ascending(Locks(script[..n + 1]))
  }

  /** Take a lock shared, then ask for it exclusively. */
  function UpgradeScript(lock: Lock): seq<Request> {
    [Request(lock, Share), Request(lock, Exclusive)]
  }

  lemma UpgradeStrengthens(lock: Lock)
    ensures StrengthensLock(UpgradeScript(lock), 1, lock)
    ensures UpgradeScript(lock)[..1] == [Request(lock, Share)]
    ensures forall n: nat :: Strengthens(UpgradeScript(lock), n) ==> n == 1
  {
    var u := UpgradeScript(lock);
    assert u[..2] == u && u[..1] == [u[0]];
    assert Locks(u)[0] == lock && Locks(u)[1] == lock;
    LessIsTotalOrder(lock, lock, lock);
    assert u[0].lock == u[1].lock;
  }

  /** A script can deadlock with an upgrade of a lock if and only if it strengthens that lock itself. */
  lemma ScriptDeadlocksExactly(script: seq<Request>, lock: Lock)
    ensures CanDeadlock([script, UpgradeScript(lock)]) <==> EverStrengthens(script, lock)
  {
    var upgrade := UpgradeScript(lock);
    var scripts := [script, upgrade];
    DeadlocksExactly(scripts);
    UpgradeStrengthens(lock);
    if EverStrengthens(script, lock) {
      var n: nat :| StrengthensLock(script, n, lock);
      assert Rivals(script, n, upgrade, 1);
      assert Rivals(scripts[0], n, scripts[1], 1);
    }
    if !NoRivals(scripts) {
      var i, k, m: nat, n: nat :| 0 <= i < 2 && 0 <= k < 2 && i != k && Rivals(scripts[i], m, scripts[k], n);
      assert StrengthensLock(script, if i == 0 then m else n, lock);
    }
  }

  /** Two upgrades of one lock pass their guards and deadlock. */
  lemma UpgradesDeadlock(lock: Lock)
    ensures CanDeadlock([UpgradeScript(lock), UpgradeScript(lock)])
  {
    UpgradeStrengthens(lock);
    ScriptDeadlocksExactly(UpgradeScript(lock), lock);
  }

  // ---------------------------------------------------------------------------
  // Progress
  // ---------------------------------------------------------------------------

  lemma NotBelowGreater(a: Lock, b: Lock, c: Lock)
    requires Less(a, b) && !Less(a, c)
    ensures !Less(b, c) && !Less(b, b)
  {
    LessIsTotalOrder(a, b, c);
    LessIsTotalOrder(b, b, b);
  }

  predicate Wants(t: Txn) { t.status == Waiting && t.todo != [] }

  predicate Above(a: Txn, b: Txn) {
    Wants(a) && (Wants(b) ==> !Less(Wanted(a), Wanted(b)))
  }

  /** No waiting transaction among the first `n` wants a lock above what `top` wants. */
  predicate Greatest(s: System, n: nat, top: nat) {
    n <= |s| && top < n && forall i :: 0 <= i < n ==> Above(s[top], s[i])
  }

  lemma AboveAlso(a: Txn, b: Txn, c: Txn)
    requires Wants(b) && !Above(a, b) && Above(a, c)
    ensures Above(b, c) && Above(b, b)
  {
    LessIsTotalOrder(Wanted(a), Wanted(a), Wanted(a));
    NotBelowGreater(Wanted(a), Wanted(b), Wanted(a));
    if Wants(c) { NotBelowGreater(Wanted(a), Wanted(b), Wanted(c)); }
  }

  lemma {:induction false} GreatestWanted(s: System, n: nat) returns (top: nat)
    requires n <= |s|
    ensures Greatest(s, n, top) || forall i :: 0 <= i < n ==> !Wants(s[i])
    decreases n
  {
    if n == 0 { return 0; }
    top := GreatestWanted(s, n - 1);
    if Wants(s[n - 1]) {
      if !Greatest(s, n - 1, top) {
        LessIsTotalOrder(Wanted(s[n - 1]), Wanted(s[n - 1]), Wanted(s[n - 1]));
        top := n - 1;
      } else if !Above(s[top], s[n - 1]) {
        forall i | 0 <= i < n ensures Above(s[n - 1], s[i]) {
          AboveAlso(s[top], s[n - 1], if i < n - 1 then s[i] else s[top]);
        }
        top := n - 1;
      }
    }
  }

  /** Blocked behind a greatest wanted lock, a transaction wants that same lock, which it holds. */
  lemma BlockedAtTheTop(s: System, i: nat, j: nat)
    requires Ordered(s) && Greatest(s, |s|, i) && WaitsFor(s, i, j) && Wants(s[j])
    ensures Wanted(s[j]) == Wanted(s[i]) && Greatest(s, |s|, j)
  {
    assert Above(s[i], s[j]);
    WantedNeverFalls(s, i, j);
    LessIsTotalOrder(Wanted(s[i]), Wanted(s[j]), Wanted(s[i]));
    forall x | 0 <= x < |s| ensures Above(s[j], s[x]) { assert Above(s[i], s[x]); }
  }

  /** Every unfinished transaction waits, and waits for another. */
  predicate AllBlocked(s: System) {
    forall i :: 0 <= i < |s| && Unfinished(s[i]) ==> Wants(s[i]) && Blocked(s, i)
  }

  lemma NextBlocked(s: System, i: nat) returns (j: nat)
    requires Ordered(s) && AllBlocked(s) && i < |s| && Wants(s[i])
    ensures WaitsFor(s, i, j) && Wants(s[j])
  {
    j :| 0 <= j < |s| && WaitsFor(s, i, j);
    assert TxnOk(s[j]);
  }

  /** Behind the greatest wanted lock three transactions wait in a row for that one lock. */
  lemma RowAtTheTop(s: System, some: nat) returns (i: nat, j: nat, k: nat, l: nat)
    requires Ordered(s) && AllBlocked(s) && some < |s| && Wants(s[some])
    ensures WaitsFor(s, i, j) && WaitsFor(s, j, k) && WaitsFor(s, k, l)
    ensures Wanted(s[i]) == Wanted(s[j]) == Wanted(s[k])
  {
    i := GreatestWanted(s, |s|);
    assert Greatest(s, |s|, i);
    j := NextBlocked(s, i);
    BlockedAtTheTop(s, i, j);
    k := NextBlocked(s, j);
    BlockedAtTheTop(s, j, k);
    l := NextBlocked(s, k);
  }

  lemma AllBlockedMeansRivals(s: System, scripts: seq<seq<Request>>, some: nat)
    requires Ordered(s) && Follows(s, scripts) && AllBlocked(s) && some < |s| && Wants(s[some])
    ensures !NoRivals(scripts)
  {
    var i, j, k, l := RowAtTheTop(s, some);
    var x := WaiterIsHolder(s, i, j);
    var y := WaiterIsHolder(s, j, k);
    BlockedPairIsRival(s, scripts, j, k, l, x, y);
  }

  /** Without rivals, while some transaction is unfinished, some transaction can take a step. */
  lemma SomeoneCanStep(scripts: seq<seq<Request>>, ops: seq<Op>)
    requires NoRivals(scripts) && exists i :: 0 <= i < |scripts| && Unfinished(Run(Begin(scripts), ops)[i])
    ensures exists i: nat :: Enabled(Run(Begin(scripts), ops), i)
  {
    var s := Run(Begin(scripts), ops);
    RunIsOrdered(scripts, ops);
    var some :| 0 <= some < |s| && Unfinished(s[some]);
    if forall i: nat :: !Enabled(s, i) {
      forall i | 0 <= i < |s| && Unfinished(s[i]) ensures Wants(s[i]) && Blocked(s, i) {
        assert !Enabled(s, i) && TxnOk(s[i]);
      }
      AllBlockedMeansRivals(s, scripts, some);
      assert false;
    }
  }

  function Remaining(t: Txn): nat {
    match t.status
    case Active => 2 * |t.todo| + 1
    case Waiting => 2 * |t.todo|
    case Committed => 0
    case RolledBack => 0
  }

  function TotalRemaining(s: System): nat {
    if s == [] then 0 else TotalRemaining(s[..|s| - 1]) + Remaining(s[|s| - 1])
  }

  lemma {:induction false} ReplaceRemaining(s: System, i: nat, t: Txn)
    requires i < |s|
    ensures TotalRemaining(s[i := t]) == TotalRemaining(s) - Remaining(s[i]) + Remaining(t)
    decreases |s|
  {
    var n := |s| - 1;
    if i < n {
      ReplaceRemaining(s[..n], i, t);
      assert s[i := t][..n] == s[..n][i := t];
    } else {
      assert s[i := t][..n] == s[..n];
    }
  }

  /** Every step of a run was possible when it was taken. */
  predicate Effective(s: System, ops: seq<Op>)
    decreases |ops|
  {
    ops == [] || (Effective(s, ops[..|ops| - 1])
                  && var before := Run(s, ops[..|ops| - 1]);
                     var op := ops[|ops| - 1];
                     if op.Proceed? then Enabled(before, op.i) else op.i < |before| && Unfinished(before[op.i]))
  }

  lemma OwnShrinks(s: System, op: Op)
    requires op.i < |s| && TxnOk(s[op.i]) && Unfinished(s[op.i]) && (op.Proceed? ==> !Blocked(s, op.i))
    ensures Remaining(Step(s, op)[op.i]) < Remaining(s[op.i])
  {
    if op.Proceed? {
      assert Step(s, op) == Advance(s, op.i);
    }
  }

  lemma StepShrinks(s: System, op: Op)
    requires Ordered(s) && op.i < |s| && Unfinished(s[op.i]) && (op.Proceed? ==> !Blocked(s, op.i))
    ensures TotalRemaining(Step(s, op)) < TotalRemaining(s)
  {
    assert TxnOk(s[op.i]);
    OwnShrinks(s, op);
    StepKeepsTxn(s, op);
    ReplaceRemaining(s, op.i, Step(s, op)[op.i]);
  }

  /** However the steps interleave, a run is at most twice the requests plus one step per transaction long. */
  lemma {:induction false} RunsAreBounded(scripts: seq<seq<Request>>, ops: seq<Op>)
    requires Effective(Begin(scripts), ops)
    ensures |ops| + TotalRemaining(Run(Begin(scripts), ops)) <= TotalRemaining(Begin(scripts))
    decreases |ops|
  {
    if ops != [] {
      var before := Run(Begin(scripts), ops[..|ops| - 1]);
      RunsAreBounded(scripts, ops[..|ops| - 1]);
      RunIsOrdered(scripts, ops[..|ops| - 1]);
      StepShrinks(before, ops[|ops| - 1]);
    }
  }

  /** Without rivals, a run that can go no further has finished every transaction. */
  lemma StuckMeansFinished(scripts: seq<seq<Request>>, ops: seq<Op>)
    requires NoRivals(scripts) && forall i: nat :: !Enabled(Run(Begin(scripts), ops), i)
    ensures forall i :: 0 <= i < |scripts| ==>
              Run(Begin(scripts), ops)[i].status == Committed || Run(Begin(scripts), ops)[i].status == RolledBack
  {
    if exists i :: 0 <= i < |scripts| && Unfinished(Run(Begin(scripts), ops)[i]) {
      SomeoneCanStep(scripts, ops);
      assert false;
    }
  }

  /** The guard has nothing to object to in what is left of the script, and has not objected so far. */
  predicate Tidy(t: Txn) {
    t.status == Committed || (Unfinished(t) && Ascending(Locks(t.held + t.todo)))
  }

  lemma TidyStep(s: System, i: nat)
    requires Ordered(s) && i < |s| && Unfinished(s[i]) && Tidy(s[i])
    ensures Tidy(Step(s, Proceed(i))[i])
  {
    var t := s[i];
    var all := Locks(t.held + t.todo);
    if t.status == Active && t.todo != [] {
      assert Acquired(t) == Locks(t.held);
      if t.held != [] {
        assert all[|t.held| - 1] == t.held[|t.held| - 1].lock && all[|t.held|] == t.todo[0].lock;
      }
    } else if t.status == Waiting && !Blocked(s, i) {
      assert t.held + [t.todo[0]] + t.todo[1..] == t.held + t.todo;
    }
  }

  lemma {:induction false} TidyRun(scripts: seq<seq<Request>>, ops: seq<Op>)
    requires forall i :: 0 <= i < |scripts| ==> Ascending(Locks(scripts[i]))
    requires forall n :: 0 <= n < |ops| ==> ops[n].Proceed?
    ensures forall i :: 0 <= i < |scripts| ==> Tidy(Run(Begin(scripts), ops)[i])
    decreases |ops|
  {
    if ops == [] {
      forall i | 0 <= i < |scripts| ensures Tidy(Begin(scripts)[i]) {
        assert [] + scripts[i] == scripts[i];
      }
    } else {
      var before := Run(Begin(scripts), ops[..|ops| - 1]);
      TidyRun(scripts, ops[..|ops| - 1]);
      RunIsOrdered(scripts, ops[..|ops| - 1]);
      var i := ops[|ops| - 1].i;
      if i < |before| && Unfinished(before[i]) { TidyStep(before, i); }
    }
  }

  /** Without rivals, transactions that ask in order and do not fail all commit, whatever the interleaving. */
  lemma OrderedScriptsAllCommit(scripts: seq<seq<Request>>, ops: seq<Op>)
    requires NoRivals(scripts) && forall i :: 0 <= i < |scripts| ==> Ascending(Locks(scripts[i]))
    requires forall n :: 0 <= n < |ops| ==> ops[n].Proceed?
    requires forall i: nat :: !Enabled(Run(Begin(scripts), ops), i)
    ensures forall i :: 0 <= i < |scripts| ==> Run(Begin(scripts), ops)[i].status == Committed
  {
    TidyRun(scripts, ops);
    StuckMeansFinished(scripts, ops);
  }
}
