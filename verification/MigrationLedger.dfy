/**
 The schema migration ledger and any number of `migrate` processes over it.

 Every SQL transaction is one atomic step on the ledger rows.  A process may
 crash, have a statement fail, or lose the reply of a statement that took
 effect, at any point.
 */
module MigrationLedger {
  import opened Options
  import opened Search

  /** The digits of a file name or ledger key. */
  datatype Version = Version(digits: string)

  /** A SHA-256 digest. */
  datatype Checksum = Checksum(bytes: seq<nat>)

  /** The platform incarnation and deployment epoch a migration runs under. */
  datatype Heads = Heads(incarnation: nat, epoch: nat)

  datatype RowState = RUNNING | APPLIED | FAILED

  datatype Row = Row(version: Version, checksum: Checksum, previous: Option<Checksum>, state: RowState,
                     owner: Option<nat>, heads: Heads)

  datatype Migration = Migration(version: Version, checksum: Checksum)

  const BASELINE_VERSION := Version("00000000000000")

  function IndexOf(rows: seq<Row>, version: Version): nat {
    FirstIndex(rows, (row: Row) => row.version == version)
  }

  predicate HasVersion(rows: seq<Row>, version: Version) { IndexOf(rows, version) < |rows| }

  predicate AnyActive(rows: seq<Row>) { exists i :: 0 <= i < |rows| && rows[i].state == RUNNING }

  // ---------------------------------------------------------------------------
  // The transactions
  // ---------------------------------------------------------------------------

  function InsertBaseline(rows: seq<Row>, checksum: Checksum, heads: Option<Heads>): Option<seq<Row>> {
    if heads.None? || HasVersion(rows, BASELINE_VERSION) then None
    else Some(rows + [Row(BASELINE_VERSION, checksum, None, APPLIED, None, heads.value)])
  }

  function ClaimRow(
      rows: seq<Row>, m: Migration, previous: Checksum, owner: nat, heads: Option<Heads>): Option<seq<Row>> {
    if heads.None? || AnyActive(rows) || HasVersion(rows, m.version) then None
    else Some(rows + [Row(m.version, m.checksum, Some(previous), RUNNING, Some(owner), heads.value)])
  }

  predicate Owns(rows: seq<Row>, version: Version, owner: nat) {
    var i := IndexOf(rows, version);
    i < |rows| && rows[i].state == RUNNING && rows[i].owner == Some(owner)
  }

  function FinalizeRow(rows: seq<Row>, version: Version, owner: nat, heads: Option<Heads>): Option<seq<Row>> {
    var i := IndexOf(rows, version);
    if heads.None? || !Owns(rows, version, owner) || rows[i].heads != heads.value then None
    else Some(rows[i := rows[i].(state := APPLIED)])
  }

  function FailRow(rows: seq<Row>, version: Version, owner: nat): seq<Row> {
    var i := IndexOf(rows, version);
    if Owns(rows, version, owner) then rows[i := rows[i].(state := FAILED)] else rows
  }

  /** What reading a ledger row tells a process: go on, insert it, or stop. */
  datatype Existing = Missing | Applied | Rejected(error: Error)

  /** The errors that stop a process which runs alone. */
  datatype Error = ChecksumMismatch | ManualReview(state: RowState) | HeadsMissing | AnotherActive | SqlFailed

  function Inspect(rows: seq<Row>, m: Migration): Existing {
    var i := IndexOf(rows, m.version);
    if i == |rows| then Missing
    else if rows[i].checksum != m.checksum then Rejected(ChecksumMismatch)
    else if rows[i].state != APPLIED then Rejected(ManualReview(rows[i].state))
    else Applied
  }

  // ---------------------------------------------------------------------------
  // What each statement decides and writes
  // ---------------------------------------------------------------------------

  /** Row `n` is the first one of this version; the ledger's key allows no second. */
  ghost predicate RowAt(rows: seq<Row>, n: nat, version: Version) {
    n < |rows| && rows[n].version == version && forall j :: 0 <= j < n ==> rows[j].version != version
  }

  ghost predicate Unused(rows: seq<Row>, version: Version) {
    forall j :: 0 <= j < |rows| ==> rows[j].version != version
  }

  /** A row lets a process go on if and only if it is APPLIED under the migration's checksum. */
  lemma InspectDecidesExactly(rows: seq<Row>, m: Migration, n: nat)
    ensures Inspect(rows, m) == Missing <==> Unused(rows, m.version)
    ensures RowAt(rows, n, m.version)
            ==> && (Inspect(rows, m) == Applied <==> rows[n].checksum == m.checksum && rows[n].state == APPLIED)
                && (Inspect(rows, m) == Rejected(ChecksumMismatch) <==> rows[n].checksum != m.checksum)
                && (Inspect(rows, m) == Rejected(ManualReview(rows[n].state))
                    <==> rows[n].checksum == m.checksum && rows[n].state != APPLIED)
  {
  }

  /** A claim inserts a RUNNING row under the current heads unless some row is open or has the version already. */
  lemma ClaimInsertsExactly(rows: seq<Row>, m: Migration, previous: Checksum, owner: nat, heads: Option<Heads>)
    ensures var r := ClaimRow(rows, m, previous, owner, heads);
            && (r.Some? <==> && heads.Some? && Unused(rows, m.version)
                             && forall i :: 0 <= i < |rows| ==> rows[i].state != RUNNING)
            && (r.Some? ==> r.value == rows + [Row(m.version, m.checksum, Some(previous), RUNNING, Some(owner),
                                                   heads.value)])
  {
  }

  /** The baseline is inserted once, as APPLIED and without a predecessor. */
  lemma BaselineInsertsExactly(rows: seq<Row>, checksum: Checksum, heads: Option<Heads>)
    ensures var r := InsertBaseline(rows, checksum, heads);
            && (r.Some? <==> heads.Some? && Unused(rows, Version("00000000000000")))
            && (r.Some? ==> r.value == rows + [Row(Version("00000000000000"), checksum, None, APPLIED, None,
                                                   heads.value)])
  {
  }

  /**
   A claim is finalized if and only if its row is still RUNNING for the same owner and the heads it was claimed under
   are still the current ones; a migration overtaken by a deployment is not.
  */
  lemma FinalizeAppliesExactly(rows: seq<Row>, version: Version, owner: nat, heads: Option<Heads>, n: nat)
    requires RowAt(rows, n, version)
    ensures var r := FinalizeRow(rows, version, owner, heads);
            && (r.Some?
                <==> rows[n].state == RUNNING && rows[n].owner == Some(owner) && heads == Some(rows[n].heads))
            && (r.Some?
                ==> r.value == rows[n := Row(version, rows[n].checksum, rows[n].previous, APPLIED, rows[n].owner,
                                             rows[n].heads)])
  {
    assert IndexOf(rows, version) == n;
  }

  /** Only the owner's RUNNING row becomes FAILED, whatever the heads are by then. */
  lemma FailMarksExactly(rows: seq<Row>, version: Version, owner: nat, n: nat)
    requires RowAt(rows, n, version)
    ensures FailRow(rows, version, owner)
            == if rows[n].state == RUNNING && rows[n].owner == Some(owner)
               then rows[n := Row(version, rows[n].checksum, rows[n].previous, FAILED, rows[n].owner, rows[n].heads)]
               else rows
  {
    assert IndexOf(rows, version) == n;
  }

  /** Without a row of the version neither has anything to write. */
  lemma UnusedIsLeftAlone(rows: seq<Row>, version: Version, owner: nat, heads: Option<Heads>)
    requires Unused(rows, version)
    ensures FinalizeRow(rows, version, owner, heads) == None && FailRow(rows, version, owner) == rows
  {
    assert IndexOf(rows, version) == |rows|;
  }

  // ---------------------------------------------------------------------------
  // Processes
  // ---------------------------------------------------------------------------

  datatype Phase =
    | BaselineCheck | BaselineInsert
    | Check(k: nat) | Claim(k: nat) | Start(k: nat) | Running(k: nat) | Finalize(k: nat) | MarkFailed(k: nat)
    | Done | Stopped

  /** `previous` is the checksum the loop carries forward. */
  datatype Process = Process(phase: Phase, previous: Checksum)

  /** `started` lists the migrations whose SQL was sent, in order. */
  datatype System = System(rows: seq<Row>, heads: Option<Heads>, procs: seq<Process>, started: seq<nat>)

  datatype Op = Next(pid: nat) | StatementFails(pid: nat) | ReplyLost(pid: nat) | Crash(pid: nat)
      | HeadsChange(heads: Option<Heads>)

  /** The baseline followed by the forward migrations in file-name order, versions unique. */
  predicate ValidChain(c: seq<Migration>) {
    && |c| > 0 && c[0].version == BASELINE_VERSION
    && forall i, j :: 0 <= i < j < |c| ==> c[i].version != c[j].version
  }

  /** What the next statement of a process writes when it takes effect. */
  function Effect(c: seq<Migration>, s: System, pid: nat): (r: System)
    requires ValidChain(c) && pid < |s.procs|
    ensures r.procs == s.procs && r.heads == s.heads
  {
    var p := s.procs[pid];
    match p.phase
    case BaselineInsert =>
      var r := InsertBaseline(s.rows, c[0].checksum, s.heads);
      if r.Some? then s.(rows := r.value) else s
    case Claim(k) =>
      if k >= |c| then s else
      var r := ClaimRow(s.rows, c[k], p.previous, pid, s.heads);
      if r.Some? then s.(rows := r.value) else s
    case Start(k) => s.(started := s.started + [k])
    case Finalize(k) =>
      if k >= |c| then s else
      var r := FinalizeRow(s.rows, c[k].version, pid, s.heads);
      if r.Some? then s.(rows := r.value) else s
    case MarkFailed(k) => if k >= |c| then s else s.(rows := FailRow(s.rows, c[k].version, pid))
    case _ => s
  }

  /** Where the process goes once that statement has answered. */
  function Answered(c: seq<Migration>, s: System, pid: nat): Process
    requires ValidChain(c) && pid < |s.procs|
  {
    var p := s.procs[pid];
    match p.phase
    case BaselineCheck =>
      (match Inspect(s.rows, c[0])
       case Missing => p.(phase := BaselineInsert)
       case Applied => Process(Check(1), c[0].checksum)
       case Rejected(_) => p.(phase := Stopped))
    case BaselineInsert =>
      if InsertBaseline(s.rows, c[0].checksum, s.heads).Some? then Process(Check(1), c[0].checksum)
      else p.(phase := Stopped)
    case Check(k) =>
      if k >= |c| then p.(phase := Done)
      else (match Inspect(s.rows, c[k])
            case Missing => p.(phase := Claim(k))
            case Applied => Process(Check(k + 1), c[k].checksum)
            case Rejected(_) => p.(phase := Stopped))
    case Claim(k) =>
      if k < |c| && ClaimRow(s.rows, c[k], p.previous, pid, s.heads).Some? then p.(phase := Start(k))
      else p.(phase := Stopped)
    case Start(k) => p.(phase := Running(k))
    case Running(k) => p.(phase := Finalize(k))
    case Finalize(k) =>
      if k < |c| && FinalizeRow(s.rows, c[k].version, pid, s.heads).Some? then Process(Check(k + 1), c[k].checksum)
      else p.(phase := MarkFailed(k))
    case MarkFailed(k) => p.(phase := Stopped)
    case Done => p
    case Stopped => p
  }

  /** The error path: after the claim the row is marked FAILED, before it the process just ends. */
  function Failed(p: Process): Process {
    match p.phase
    case Start(k) => p.(phase := MarkFailed(k))
    case Running(k) => p.(phase := MarkFailed(k))
    case Finalize(k) => p.(phase := MarkFailed(k))
    case Done => p
    case _ => p.(phase := Stopped)
  }

  function Step(c: seq<Migration>, s: System, op: Op): (r: System)
    requires ValidChain(c)
    ensures |r.procs| == |s.procs|
  {
    match op
    case HeadsChange(h) => s.(heads := h)
    case Next(pid) =>
      if pid >= |s.procs| then s else Effect(c, s, pid).(procs := s.procs[pid := Answered(c, s, pid)])
    case StatementFails(pid) =>
      if pid >= |s.procs| then s else s.(procs := s.procs[pid := Failed(s.procs[pid])])
    case ReplyLost(pid) =>
      if pid >= |s.procs| then s else Effect(c, s, pid).(procs := s.procs[pid := Failed(s.procs[pid])])
    case Crash(pid) =>
      if pid >= |s.procs| then s else s.(procs := s.procs[pid := s.procs[pid].(phase := Stopped)])
  }

  function Initial(n: nat, heads: Option<Heads>): (s: System)
    ensures |s.procs| == n
  {
    System([], heads, seq(n, _ => Process(BaselineCheck, Checksum([]))), [])
  }

  function Run(c: seq<Migration>, s: System, ops: seq<Op>): (r: System)
    requires ValidChain(c)
    ensures |r.procs| == |s.procs|
    decreases |ops|
  {
    if ops == [] then s else Step(c, Run(c, s, ops[..|ops| - 1]), ops[|ops| - 1])
  }

  // ---------------------------------------------------------------------------
  // Invariant
  // ---------------------------------------------------------------------------

  predicate RowOf(c: seq<Migration>, rows: seq<Row>, i: nat)
    requires i < |rows|
  {
    && i < |c| && rows[i].version == c[i].version && rows[i].checksum == c[i].checksum
    && rows[i].previous == (if i == 0 then None else Some(c[i - 1].checksum))
    && (i == 0 || i < |rows| - 1 ==> rows[i].state == APPLIED)
  }

  /** The rows are a prefix of the chain, all but the last are APPLIED, and each links to its predecessor. */
  predicate ChainPrefix(c: seq<Migration>, rows: seq<Row>) {
    forall i :: 0 <= i < |rows| ==> RowOf(c, rows, i)
  }

  predicate AllApplied(rows: seq<Row>) {
    forall i :: 0 <= i < |rows| ==> rows[i].state == APPLIED
  }

  /** Process `pid` holds the claim on migration `k`, which is the last row. */
  predicate Holds(c: seq<Migration>, rows: seq<Row>, pid: nat, k: nat) {
    1 <= k < |c| && |rows| == k + 1 && rows[k].state == RUNNING && rows[k].owner == Some(pid)
  }

  predicate AppliedBelow(rows: seq<Row>, k: nat) {
    k <= |rows| && forall i :: 0 <= i < k ==> rows[i].state == APPLIED
  }

  predicate ProcessOk(c: seq<Migration>, s: System, pid: nat)
    requires ValidChain(c) && pid < |s.procs|
  {
    var p := s.procs[pid];
    match p.phase
    case Check(k) => 1 <= k <= |c| && AppliedBelow(s.rows, k) && p.previous == c[k - 1].checksum
    case Claim(k) => 1 <= k < |c| && AppliedBelow(s.rows, k) && p.previous == c[k - 1].checksum
    case Start(k) => Holds(c, s.rows, pid, k) && k !in s.started
    case Running(k) => Holds(c, s.rows, pid, k) && k in s.started
    case Finalize(k) => Holds(c, s.rows, pid, k) && k in s.started
    case MarkFailed(k) => 1 <= k < |c|
    case Done => AppliedBelow(s.rows, |c|)
    case _ => true
  }

  /** SQL is started in order, each once, and only of claimed migrations. */
  predicate StartedOk(s: System) {
    && (forall i :: 0 <= i < |s.started| ==> 1 <= s.started[i] < |s.rows|)
    && (forall i, j :: 0 <= i < j < |s.started| ==> s.started[i] < s.started[j])
    && (forall k :: 1 <= k < |s.rows| && s.rows[k].state == APPLIED ==> k in s.started)
  }

  predicate Consistent(c: seq<Migration>, s: System)
    requires ValidChain(c)
  {
    ChainPrefix(c, s.rows) && StartedOk(s) && forall pid :: 0 <= pid < |s.procs| ==> ProcessOk(c, s, pid)
  }

  /** Rows are only added, keep what identifies them, and leave RUNNING at most once. */
  predicate Grows(before: seq<Row>, after: seq<Row>) {
    && |before| <= |after|
    && forall i :: 0 <= i < |before| ==>
         after[i] == before[i].(state := after[i].state)
         && (before[i].state != RUNNING ==> after[i].state == before[i].state)
  }

  lemma FoundAt(c: seq<Migration>, rows: seq<Row>, k: nat)
    requires ValidChain(c) && ChainPrefix(c, rows) && k < |c|
    ensures IndexOf(rows, c[k].version) == if k < |rows| then k else |rows|
  {
    var i := IndexOf(rows, c[k].version);
    if i < |rows| {
      assert RowOf(c, rows, i);
    }
    if k < |rows| {
      assert RowOf(c, rows, k);
    }
  }

  lemma ActiveIsLast(c: seq<Migration>, rows: seq<Row>, i: nat)
    requires ValidChain(c) && ChainPrefix(c, rows) && i < |rows| && rows[i].state != APPLIED
    ensures i == |rows| - 1 && i >= 1
  {
    assert RowOf(c, rows, i);
  }

  // ---------------------------------------------------------------------------
  // Each transaction keeps the chain
  // ---------------------------------------------------------------------------

  lemma InsertBaselineKeeps(c: seq<Migration>, rows: seq<Row>, heads: Option<Heads>)
    requires ValidChain(c) && ChainPrefix(c, rows) && InsertBaseline(rows, c[0].checksum, heads).Some?
    ensures rows == [] && ChainPrefix(c, InsertBaseline(rows, c[0].checksum, heads).value)
  {
    FoundAt(c, rows, 0);
  }

  lemma ClaimKeeps(c: seq<Migration>, rows: seq<Row>, k: nat, previous: Checksum, pid: nat, heads: Option<Heads>)
    requires ValidChain(c) && ChainPrefix(c, rows) && 1 <= k < |c| && AppliedBelow(rows, k)
        && previous == c[k - 1].checksum
    requires ClaimRow(rows, c[k], previous, pid, heads).Some?
    ensures var after := ClaimRow(rows, c[k], previous, pid, heads).value;
            |rows| == k && ChainPrefix(c, after) && Holds(c, after, pid, k) && Grows(rows, after)
  {
    FoundAt(c, rows, k);
    var after := ClaimRow(rows, c[k], previous, pid, heads).value;
    forall i | 0 <= i < |after| ensures RowOf(c, after, i) {
      if i < k { assert RowOf(c, rows, i); }
    }
  }

  /** A transaction that ends the claim touches the last row only. */
  lemma EndingKeeps(c: seq<Migration>, rows: seq<Row>, k: nat, pid: nat, state: RowState)
    requires ValidChain(c) && ChainPrefix(c, rows) && 1 <= k < |c| && Owns(rows, c[k].version, pid) && state != RUNNING
    ensures Holds(c, rows, pid, k) && IndexOf(rows, c[k].version) == k
    ensures ChainPrefix(c, rows[k := rows[k].(state := state)]) && Grows(rows, rows[k := rows[k].(state := state)])
  {
    FoundAt(c, rows, k);
    ActiveIsLast(c, rows, k);
    var after := rows[k := rows[k].(state := state)];
    forall i | 0 <= i < |after| ensures RowOf(c, after, i) {
      assert RowOf(c, rows, i);
    }
  }

  lemma HolderOwns(c: seq<Migration>, rows: seq<Row>, pid: nat, k: nat)
    requires ValidChain(c) && ChainPrefix(c, rows) && Holds(c, rows, pid, k)
    ensures Owns(rows, c[k].version, pid) && AnyActive(rows) && HasVersion(rows, BASELINE_VERSION)
  {
    FoundAt(c, rows, k);
    FoundAt(c, rows, 0);
  }

  lemma EffectKeepsLedger(c: seq<Migration>, s: System, pid: nat)
    requires ValidChain(c) && Consistent(c, s) && pid < |s.procs|
    ensures ChainPrefix(c, Effect(c, s, pid).rows) && Grows(s.rows, Effect(c, s, pid).rows)
  {
    assert ProcessOk(c, s, pid);
    match s.procs[pid].phase
    case BaselineInsert =>
      if InsertBaseline(s.rows, c[0].checksum, s.heads).Some? { InsertBaselineKeeps(c, s.rows, s.heads); }
    case Claim(k) =>
      if ClaimRow(s.rows, c[k], s.procs[pid].previous, pid, s.heads).Some? {
        ClaimKeeps(c, s.rows, k, s.procs[pid].previous, pid, s.heads);
      }
    case Finalize(k) =>
      if FinalizeRow(s.rows, c[k].version, pid, s.heads).Some? { EndingKeeps(c, s.rows, k, pid, APPLIED); }
    case MarkFailed(k) =>
      if Owns(s.rows, c[k].version, pid) { EndingKeeps(c, s.rows, k, pid, FAILED); }
    case _ =>
  }

  lemma EffectKeepsStarted(c: seq<Migration>, s: System, pid: nat)
    requires ValidChain(c) && Consistent(c, s) && pid < |s.procs|
    ensures StartedOk(Effect(c, s, pid))
  {
    assert ProcessOk(c, s, pid);
    var r := Effect(c, s, pid);
    match s.procs[pid].phase
    case BaselineInsert =>
      if InsertBaseline(s.rows, c[0].checksum, s.heads).Some? { InsertBaselineKeeps(c, s.rows, s.heads); }
    case Start(k) =>
      forall j | 0 <= j < |s.started| ensures s.started[j] < k {
        assert s.started[j] in s.started;
      }
      forall n | n in s.started ensures n in r.started {
      }
    case Finalize(k) =>
      if FinalizeRow(s.rows, c[k].version, pid, s.heads).Some? { EndingKeeps(c, s.rows, k, pid, APPLIED); }
    case MarkFailed(k) =>
      if Owns(s.rows, c[k].version, pid) { EndingKeeps(c, s.rows, k, pid, FAILED); }
    case _ =>
  }

  /** While `q` holds a claim, no other process can write the ledger or start SQL. */
  lemma HolderExcludes(c: seq<Migration>, s: System, pid: nat, q: nat, k: nat)
    requires ValidChain(c) && Consistent(c, s) && pid < |s.procs| && q < |s.procs| && q != pid && Holds(c, s.rows, q, k)
    ensures Effect(c, s, pid) == s
  {
    assert ProcessOk(c, s, pid);
    HolderOwns(c, s.rows, q, k);
    match s.procs[pid].phase
    case Finalize(j) =>
    case MarkFailed(j) =>
      if Owns(s.rows, c[j].version, pid) { EndingKeeps(c, s.rows, j, pid, FAILED); }
    case _ =>
  }

  lemma OthersStayOk(c: seq<Migration>, s: System, pid: nat, q: nat, p: Process)
    requires ValidChain(c) && Consistent(c, s) && pid < |s.procs| && q < |s.procs| && q != pid
    ensures ProcessOk(c, Effect(c, s, pid).(procs := s.procs[pid := p]), q)
  {
    EffectKeepsLedger(c, s, pid);
    assert ProcessOk(c, s, q);
    match s.procs[q].phase
    case Start(k) => HolderExcludes(c, s, pid, q, k);
    case Running(k) => HolderExcludes(c, s, pid, q, k);
    case Finalize(k) => HolderExcludes(c, s, pid, q, k);
    case _ =>
  }

  lemma ClaimAnswer(c: seq<Migration>, s: System, pid: nat)
    requires ValidChain(c) && Consistent(c, s) && pid < |s.procs| && s.procs[pid].phase.Claim?
    ensures ProcessOk(c, Step(c, s, Next(pid)), pid)
  {
    var p := s.procs[pid];
    var k := p.phase.k;
    assert ProcessOk(c, s, pid);
    if ClaimRow(s.rows, c[k], p.previous, pid, s.heads).Some? {
      ClaimKeeps(c, s.rows, k, p.previous, pid, s.heads);
      forall j | 0 <= j < |s.started| ensures s.started[j] != k { }
    }
  }

  lemma FinalizeAnswer(c: seq<Migration>, s: System, pid: nat)
    requires ValidChain(c) && Consistent(c, s) && pid < |s.procs| && s.procs[pid].phase.Finalize?
    ensures ProcessOk(c, Step(c, s, Next(pid)), pid)
  {
    var k := s.procs[pid].phase.k;
    assert ProcessOk(c, s, pid);
    if FinalizeRow(s.rows, c[k].version, pid, s.heads).Some? {
      EndingKeeps(c, s.rows, k, pid, APPLIED);
      forall i | 0 <= i < k ensures s.rows[i].state == APPLIED { assert RowOf(c, s.rows, i); }
    }
  }

  lemma ReadAnswer(c: seq<Migration>, s: System, pid: nat)
    requires ValidChain(c) && Consistent(c, s) && pid < |s.procs|
    requires s.procs[pid].phase.BaselineCheck? || s.procs[pid].phase.BaselineInsert? || s.procs[pid].phase.Check?
    ensures ProcessOk(c, Step(c, s, Next(pid)), pid)
  {
    assert ProcessOk(c, s, pid);
    match s.procs[pid].phase
    case BaselineCheck => FoundAt(c, s.rows, 0);
    case BaselineInsert =>
      if InsertBaseline(s.rows, c[0].checksum, s.heads).Some? { InsertBaselineKeeps(c, s.rows, s.heads); }
    case Check(k) => if k < |c| { FoundAt(c, s.rows, k); }
  }

  lemma AnsweredIsOk(c: seq<Migration>, s: System, pid: nat)
    requires ValidChain(c) && Consistent(c, s) && pid < |s.procs|
    ensures ProcessOk(c, Step(c, s, Next(pid)), pid)
  {
    match s.procs[pid].phase
    case BaselineCheck => ReadAnswer(c, s, pid);
    case BaselineInsert => ReadAnswer(c, s, pid);
    case Check(k) => ReadAnswer(c, s, pid);
    case Claim(k) => ClaimAnswer(c, s, pid);
    case Finalize(k) => FinalizeAnswer(c, s, pid);
    case _ => assert ProcessOk(c, s, pid);
  }

  lemma FailedIsOk(c: seq<Migration>, s: System, pid: nat, took: bool)
    requires ValidChain(c) && Consistent(c, s) && pid < |s.procs|
    ensures ProcessOk(c, (if took then Effect(c, s, pid) else s).(procs := s.procs[pid := Failed(s.procs[pid])]), pid)
  {
    assert ProcessOk(c, s, pid);
  }

  /** A statement by `pid`, whatever it answers, keeps the invariant if it leaves `pid` itself in order. */
  lemma StatementKeepsConsistent(c: seq<Migration>, s: System, pid: nat, p: Process)
    requires ValidChain(c) && Consistent(c, s) && pid < |s.procs|
    requires ProcessOk(c, Effect(c, s, pid).(procs := s.procs[pid := p]), pid)
    ensures Consistent(c, Effect(c, s, pid).(procs := s.procs[pid := p]))
  {
    var r := Effect(c, s, pid).(procs := s.procs[pid := p]);
    EffectKeepsLedger(c, s, pid);
    EffectKeepsStarted(c, s, pid);
    assert StartedOk(r) && ChainPrefix(c, r.rows);
    forall q | 0 <= q < |r.procs| ensures ProcessOk(c, r, q) {
      if q != pid { OthersStayOk(c, s, pid, q, p); }
    }
  }

  /** So does a process that stops or turns to its error path without having written. */
  lemma TurningKeepsConsistent(c: seq<Migration>, s: System, pid: nat, p: Process)
    requires ValidChain(c) && Consistent(c, s) && pid < |s.procs| && ProcessOk(c, s.(procs := s.procs[pid := p]), pid)
    ensures Consistent(c, s.(procs := s.procs[pid := p]))
  {
    var r := s.(procs := s.procs[pid := p]);
    forall q | 0 <= q < |r.procs| ensures ProcessOk(c, r, q) {
      if q != pid { assert ProcessOk(c, s, q); }
    }
  }

  lemma HeadsKeepConsistent(c: seq<Migration>, s: System, heads: Option<Heads>)
    requires ValidChain(c) && Consistent(c, s)
    ensures Consistent(c, s.(heads := heads))
  {
    forall q | 0 <= q < |s.procs| ensures ProcessOk(c, s.(heads := heads), q) { assert ProcessOk(c, s, q); }
  }

  lemma StepKeepsConsistent(c: seq<Migration>, s: System, op: Op)
    requires ValidChain(c) && Consistent(c, s)
    ensures Consistent(c, Step(c, s, op)) && Grows(s.rows, Step(c, s, op).rows)
  {
    match op
    case HeadsChange(heads) => HeadsKeepConsistent(c, s, heads);
    case Next(pid) =>
      if pid < |s.procs| {
        AnsweredIsOk(c, s, pid);
        EffectKeepsLedger(c, s, pid);
        StatementKeepsConsistent(c, s, pid, Answered(c, s, pid));
      }
    case ReplyLost(pid) =>
      if pid < |s.procs| {
        FailedIsOk(c, s, pid, true);
        EffectKeepsLedger(c, s, pid);
        StatementKeepsConsistent(c, s, pid, Failed(s.procs[pid]));
      }
    case StatementFails(pid) =>
      if pid < |s.procs| {
        FailedIsOk(c, s, pid, false);
        TurningKeepsConsistent(c, s, pid, Failed(s.procs[pid]));
      }
    case Crash(pid) =>
      if pid < |s.procs| { TurningKeepsConsistent(c, s, pid, s.procs[pid].(phase := Stopped)); }
  }

  // ---------------------------------------------------------------------------
  // What holds after every run
  // ---------------------------------------------------------------------------

  lemma {:induction false} RunIsConsistent(c: seq<Migration>, n: nat, heads: Option<Heads>, ops: seq<Op>)
    requires ValidChain(c)
    ensures Consistent(c, Run(c, Initial(n, heads), ops))
    decreases |ops|
  {
    if ops != [] {
      RunIsConsistent(c, n, heads, ops[..|ops| - 1]);
      StepKeepsConsistent(c, Run(c, Initial(n, heads), ops[..|ops| - 1]), ops[|ops| - 1]);
    }
  }

  /** Checksums follow the chain and link, and all but the last row are APPLIED. */
  predicate LinkedPrefix(c: seq<Migration>, rows: seq<Row>) {
    && |rows| <= |c|
    && (forall i :: 0 <= i < |rows| ==> rows[i].version == c[i].version && rows[i].checksum == c[i].checksum)
    && (forall i :: 0 < i < |rows| ==> rows[i].previous == Some(rows[i - 1].checksum))
    && (forall i :: 0 <= i < |rows| - 1 ==> rows[i].state == APPLIED)
    && (rows != [] ==> rows[0].previous == None && rows[0].state == APPLIED)
  }

  lemma PrefixIsLinked(c: seq<Migration>, rows: seq<Row>)
    requires ValidChain(c) && ChainPrefix(c, rows)
    ensures LinkedPrefix(c, rows)
  {
    if rows != [] { assert RowOf(c, rows, |rows| - 1) && RowOf(c, rows, 0); }
    forall i | 0 < i < |rows| ensures rows[i].previous == Some(rows[i - 1].checksum) {
      assert RowOf(c, rows, i) && RowOf(c, rows, i - 1);
    }
    forall i | 0 <= i < |rows|
      ensures rows[i].version == c[i].version && rows[i].checksum == c[i].checksum
      ensures i < |rows| - 1 ==> rows[i].state == APPLIED
    {
      assert RowOf(c, rows, i);
    }
  }

  /** Whatever interleaves, fails or crashes, the ledger is a linked prefix of the chain. */
  lemma LedgerIsChainPrefix(c: seq<Migration>, n: nat, heads: Option<Heads>, ops: seq<Op>)
    requires ValidChain(c)
    ensures var rows := Run(c, Initial(n, heads), ops).rows;
            && |rows| <= |c|
            && (forall i :: 0 <= i < |rows| ==> rows[i].version == c[i].version && rows[i].checksum == c[i].checksum)
            && (forall i :: 0 < i < |rows| ==> rows[i].previous == Some(rows[i - 1].checksum))
            && (forall i :: 0 <= i < |rows| - 1 ==> rows[i].state == APPLIED)
            && (rows != [] ==> rows[0].previous == None && rows[0].state == APPLIED)
  {
    RunIsConsistent(c, n, heads, ops);
    PrefixIsLinked(c, Run(c, Initial(n, heads), ops).rows);
  }

  /** The per-version advisory lock does not prevent two open migrations; the protocol does. */
  lemma AtMostOneOpenMigration(c: seq<Migration>, n: nat, heads: Option<Heads>, ops: seq<Op>, i: nat, j: nat)
    requires ValidChain(c)
    requires var rows := Run(c, Initial(n, heads), ops).rows;
             i < |rows| && j < |rows| && rows[i].state != APPLIED && rows[j].state != APPLIED
    ensures i == j == |Run(c, Initial(n, heads), ops).rows| - 1
  {
    LedgerIsChainPrefix(c, n, heads, ops);
  }

  /** Each migration's SQL is started at most once, in chain order, and before its row can be APPLIED. */
  lemma SqlStartsAtMostOnce(c: seq<Migration>, n: nat, heads: Option<Heads>, ops: seq<Op>)
    requires ValidChain(c)
    ensures var s := Run(c, Initial(n, heads), ops);
            && (forall i, j :: 0 <= i < j < |s.started| ==> s.started[i] < s.started[j])
            && (forall k :: 1 <= k < |s.rows| && s.rows[k].state == APPLIED ==> k in s.started)
  {
    RunIsConsistent(c, n, heads, ops);
  }

  /** SQL starts only when every earlier migration is APPLIED and the starter holds the only open row. */
  lemma SqlStartsAfterPredecessors(c: seq<Migration>, n: nat, heads: Option<Heads>, ops: seq<Op>, op: Op, k: nat)
    requires ValidChain(c)
    requires var s := Run(c, Initial(n, heads), ops);
             Step(c, s, op).started == s.started + [k]
    ensures var s := Run(c, Initial(n, heads), ops);
            k !in s.started && AppliedBelow(s.rows, k) && |s.rows| == k + 1 && s.rows[k].state == RUNNING
  {
    var s := Run(c, Initial(n, heads), ops);
    RunIsConsistent(c, n, heads, ops);
    assert ProcessOk(c, s, op.pid);
    assert s.procs[op.pid].phase == Start(k) by {
      assert (s.started + [k])[|s.started|] == k;
      assert Step(c, s, op).started[|s.started|] == k;
    }
    forall i | 0 <= i < k ensures s.rows[i].state == APPLIED { assert RowOf(c, s.rows, i); }
  }

  /** When a process has finished, the whole chain is APPLIED. */
  lemma DoneMeansApplied(c: seq<Migration>, n: nat, heads: Option<Heads>, ops: seq<Op>, pid: nat)
    requires ValidChain(c) && pid < n && Run(c, Initial(n, heads), ops).procs[pid].phase == Done
    ensures var rows := Run(c, Initial(n, heads), ops).rows; |rows| == |c| && AllApplied(rows)
  {
    RunIsConsistent(c, n, heads, ops);
    LedgerIsChainPrefix(c, n, heads, ops);
    assert ProcessOk(c, Run(c, Initial(n, heads), ops), pid);
  }

  lemma GrowsTransitive(a: seq<Row>, b: seq<Row>, c: seq<Row>)
    requires Grows(a, b) && Grows(b, c)
    ensures Grows(a, c)
  {
  }

  /** Rows are never removed or rewritten; only a RUNNING row changes state. */
  lemma {:induction false} HistoryIsKept(c: seq<Migration>, n: nat, heads: Option<Heads>, ops: seq<Op>, more: seq<Op>)
    requires ValidChain(c)
    ensures Grows(Run(c, Initial(n, heads), ops).rows, Run(c, Initial(n, heads), ops + more).rows)
    ensures var before, after := Run(c, Initial(n, heads), ops).rows, Run(c, Initial(n, heads), ops + more).rows;
            && |before| <= |after|
            && forall i :: 0 <= i < |before|
                           ==> && after[i].version == before[i].version && after[i].checksum == before[i].checksum
                               && after[i].previous == before[i].previous && after[i].owner == before[i].owner
                               && after[i].heads == before[i].heads
                               && (before[i].state != RUNNING ==> after[i].state == before[i].state)
    decreases |more|
  {
    if more == [] {
      assert ops + more == ops;
    } else {
      var front := more[..|more| - 1];
      HistoryIsKept(c, n, heads, ops, front);
      RunIsConsistent(c, n, heads, ops + front);
      assert (ops + more)[..|ops + more| - 1] == ops + front;
      var middle := Run(c, Initial(n, heads), ops + front);
      StepKeepsConsistent(c, middle, more[|more| - 1]);
      assert (ops + more)[|ops + more| - 1] == more[|more| - 1];
      assert Run(c, Initial(n, heads), ops + more) == Step(c, middle, more[|more| - 1]);
      GrowsTransitive(Run(c, Initial(n, heads), ops).rows, middle.rows, Run(c, Initial(n, heads), ops + more).rows);
    }
  }

  /** A failed migration freezes the ledger until someone reviews it by hand. */
  lemma FailureFreezes(c: seq<Migration>, n: nat, heads: Option<Heads>, ops: seq<Op>, more: seq<Op>)
    requires ValidChain(c)
    requires var rows := Run(c, Initial(n, heads), ops).rows; rows != [] && rows[|rows| - 1].state == FAILED
    ensures Run(c, Initial(n, heads), ops + more).rows == Run(c, Initial(n, heads), ops).rows
  {
    HistoryIsKept(c, n, heads, ops, more);
    LedgerIsChainPrefix(c, n, heads, ops);
    LedgerIsChainPrefix(c, n, heads, ops + more);
  }

  // ---------------------------------------------------------------------------
  // One `migrate` process alone
  // ---------------------------------------------------------------------------

  class SchemaLedger {
    var rows: seq<Row>
    var heads: Option<Heads>

    constructor (initialHeads: Option<Heads>)
      ensures rows == [] && heads == initialHeads
    {
      rows := [];
      heads := initialHeads;
    }

    /** A recorded baseline is checked, a missing one is inserted as APPLIED. */
    method RecordGreenfieldBaseline(checksum: Checksum) returns (error: Option<Error>)
      modifies this`rows
      ensures match Inspect(old(rows), Migration(BASELINE_VERSION, checksum))
              case Applied => error == None && rows == old(rows)
              case Rejected(e) => error == Some(e) && rows == old(rows)
              case Missing =>
                match InsertBaseline(old(rows), checksum, heads)
                case Some(after) => error == None && rows == after
                case None => error == Some(HeadsMissing) && rows == old(rows)
    {
      var i := IndexOf(rows, BASELINE_VERSION);
      if i < |rows| {
        if rows[i].checksum != checksum { return Some(ChecksumMismatch); }
        if rows[i].state != APPLIED { return Some(ManualReview(rows[i].state)); }
        return None;
      }
      if heads.None? { return Some(HeadsMissing); }
      rows := rows + [Row(BASELINE_VERSION, checksum, None, APPLIED, None, heads.value)];
      error := None;
    }

    /** The claim transaction. */
    method Claim(m: Migration, previous: Checksum, owner: nat) returns (ok: bool)
      modifies this`rows
      ensures ok <==> ClaimRow(old(rows), m, previous, owner, heads).Some?
      ensures rows == if ok then ClaimRow(old(rows), m, previous, owner, heads).value else old(rows)
    {
      if heads.None? { return false; }
      for i := 0 to |rows|
        invariant forall j :: 0 <= j < i ==> rows[j].state != RUNNING
      {
        if rows[i].state == RUNNING { return false; }
      }
      if IndexOf(rows, m.version) < |rows| { return false; }
      rows := rows + [Row(m.version, m.checksum, Some(previous), RUNNING, Some(owner), heads.value)];
      ok := true;
    }

    /** The finalizer transaction: state, owner and both heads must still match. */
    method FinalizeClaim(version: Version, owner: nat) returns (ok: bool)
      modifies this`rows
      ensures ok <==> FinalizeRow(old(rows), version, owner, heads).Some?
      ensures rows == if ok then FinalizeRow(old(rows), version, owner, heads).value else old(rows)
    {
      var i := IndexOf(rows, version);
      if heads.None? || i == |rows| || rows[i].state != RUNNING || rows[i].owner != Some(owner)
          || rows[i].heads != heads.value {
        return false;
      }
      rows := rows[i := rows[i].(state := APPLIED)];
      ok := true;
    }

    method MarkFailed(version: Version, owner: nat)
      modifies this`rows
      ensures rows == FailRow(old(rows), version, owner)
    {
      var i := IndexOf(rows, version);
      if i < |rows| && rows[i].state == RUNNING && rows[i].owner == Some(owner) {
        rows := rows[i := rows[i].(state := FAILED)];
      }
    }

    /** `sqlSucceeds` is what the migration's own statements will answer.  A claim made alone is always finalized. */
    method ApplyForwardMigration(m: Migration, previous: Checksum, owner: nat, sqlSucceeds: bool)
        returns (error: Option<Error>)
      modifies this`rows
      ensures (rows, error) == ApplyAlone(old(rows), heads, m, previous, owner, sqlSucceeds)
    {
      var i := IndexOf(rows, m.version);
      if i < |rows| {
        if rows[i].checksum != m.checksum { return Some(ChecksumMismatch); }
        if rows[i].state != APPLIED { return Some(ManualReview(rows[i].state)); }
        return None;
      }
      var claimed := Claim(m, previous, owner);
      if !claimed { return if heads.None? then Some(HeadsMissing) else Some(AnotherActive); }
      ghost var claim := rows[|old(rows)|];
      assert rows == old(rows) + [claim];
      FoundLast(old(rows), claim);
      error := Some(SqlFailed);
      if sqlSucceeds {
        var finalized := FinalizeClaim(m.version, owner);
        if finalized { error := None; }
      }
      if error.Some? {
        MarkFailed(m.version, owner);
      }
      assert rows == old(rows) + [claim.(state := if sqlSucceeds then APPLIED else FAILED)];
    }

    /** The whole command, run alone on any ledger. */
    method Migrate(c: seq<Migration>, owner: nat, sqlSucceeds: seq<bool>) returns (error: Option<Error>)
      requires ValidChain(c) && |sqlSucceeds| == |c|
      modifies this`rows
      ensures error == StopsWith(old(rows), heads, c, sqlSucceeds)
      ensures rows == AfterMigrate(old(rows), heads, c, owner, sqlSucceeds)
    {
      ghost var before := rows;
      error := RecordGreenfieldBaseline(c[0].checksum);
      BaselineAlone(before, heads, c, owner, sqlSucceeds);
      if error.Some? { return; }
      var previous := c[0].checksum;
      for k := 1 to |c|
        invariant WentThrough(before, heads, c, sqlSucceeds, k) && rows == before + Added(before, heads, c, k, owner)
        invariant previous == c[k - 1].checksum && error == None
      {
        NextAlone(before, heads, c, owner, sqlSucceeds, k);
        ghost var middle := rows;
        error := ApplyForwardMigration(c[k], previous, owner, sqlSucceeds[k]);
        assert (rows, error) == ApplyAlone(middle, heads, c[k], c[k - 1].checksum, owner, sqlSucceeds[k]);
        if error.Some? { return; }
        previous := c[k].checksum;
      }
      ThroughToTheEnd(before, heads, c, owner, sqlSucceeds);
    }
  }

  // ---------------------------------------------------------------------------
  // What one process alone does to any ledger
  // ---------------------------------------------------------------------------

  /** One migration by one process: nobody disturbs its claim, so the SQL decides how the row ends. */
  function ApplyAlone(
      rows: seq<Row>, heads: Option<Heads>, m: Migration, previous: Checksum, owner: nat, sqlSucceeds: bool)
      : (seq<Row>, Option<Error>)
  {
    match Inspect(rows, m)
    case Applied => (rows, None)
    case Rejected(e) => (rows, Some(e))
    case Missing =>
      if heads.None? then (rows, Some(HeadsMissing))
      else if AnyActive(rows) then (rows, Some(AnotherActive))
      else
        var state := if sqlSucceeds then APPLIED else FAILED;
        (rows + [Row(m.version, m.checksum, Some(previous), state, Some(owner), heads.value)],
         if sqlSucceeds then None else Some(SqlFailed))
  }

  /** Why migration `k` stops a process that found the ledger like this. */
  function Verdict(rows: seq<Row>, heads: Option<Heads>, c: seq<Migration>, k: nat, sqlSucceeds: bool): Option<Error>
    requires k < |c|
  {
    match Inspect(rows, c[k])
    case Applied => None
    case Rejected(e) => Some(e)
    case Missing =>
      if heads.None? then Some(HeadsMissing)
      else if k > 0 && AnyActive(rows) then Some(AnotherActive)
      else if k > 0 && !sqlSucceeds then Some(SqlFailed)
      else None
  }

  /** The first `k` migrations do not stop it. */
  predicate WentThrough(rows: seq<Row>, heads: Option<Heads>, c: seq<Migration>, sql: seq<bool>, k: nat)
    requires k <= |c| == |sql|
  {
    forall j :: 0 <= j < k ==> Verdict(rows, heads, c, j, sql[j]).None?
  }

  /** The first migration that stops it, from `k` on, or the length of the list. */
  function FirstRefused(rows: seq<Row>, heads: Option<Heads>, c: seq<Migration>, sql: seq<bool>, k: nat): (n: nat)
    requires k <= |c| == |sql|
    ensures k <= n <= |c| && (n < |c| ==> Verdict(rows, heads, c, n, sql[n]).Some?)
    ensures forall j :: k <= j < n ==> Verdict(rows, heads, c, j, sql[j]).None?
    decreases |c| - k
  {
    if k == |c| || Verdict(rows, heads, c, k, sql[k]).Some? then k else FirstRefused(rows, heads, c, sql, k + 1)
  }

  function StopsWith(rows: seq<Row>, heads: Option<Heads>, c: seq<Migration>, sql: seq<bool>): Option<Error>
    requires |c| == |sql|
  {
    var k := FirstRefused(rows, heads, c, sql, 0);
    if k < |c| then Verdict(rows, heads, c, k, sql[k]) else None
  }

  function LedgerRow(c: seq<Migration>, k: nat, state: RowState, owner: nat, heads: Heads): Row
    requires k < |c|
  {
    if k == 0 then Row(BASELINE_VERSION, c[0].checksum, None, state, None, heads)
    else Row(c[k].version, c[k].checksum, Some(c[k - 1].checksum), state, Some(owner), heads)
  }

  /** The rows added for the first `k` migrations: one for each that is missing. */
  function Added(rows: seq<Row>, heads: Option<Heads>, c: seq<Migration>, k: nat, owner: nat): seq<Row>
    requires k <= |c|
  {
    if k == 0 then []
    else
      var front := Added(rows, heads, c, k - 1, owner);
      if heads.Some? && Inspect(rows, c[k - 1]).Missing? then front + [LedgerRow(c, k - 1, APPLIED, owner, heads.value)]
      else front
  }

  function AfterMigrate(
      rows: seq<Row>, heads: Option<Heads>, c: seq<Migration>, owner: nat, sql: seq<bool>): seq<Row>
    requires |c| == |sql|
  {
    var k := FirstRefused(rows, heads, c, sql, 0);
    var all := rows + Added(rows, heads, c, k, owner);
    if heads.Some? && StopsWith(rows, heads, c, sql) == Some(SqlFailed) && k < |c|
    then all + [LedgerRow(c, k, FAILED, owner, heads.value)]
    else all
  }

  lemma FirstRefusedIs(rows: seq<Row>, heads: Option<Heads>, c: seq<Migration>, sql: seq<bool>, n: nat)
    requires n <= |c| == |sql| && WentThrough(rows, heads, c, sql, n)
    requires n == |c| || Verdict(rows, heads, c, n, sql[n]).Some?
    ensures FirstRefused(rows, heads, c, sql, 0) == n
  {
  }

  lemma FoundLast(rows: seq<Row>, row: Row)
    requires !HasVersion(rows, row.version)
    ensures IndexOf(rows + [row], row.version) == |rows|
  {
    assert forall j :: 0 <= j < |rows| ==> (rows + [row])[j] == rows[j];
    assert (rows + [row])[|rows|] == row;
  }

  /** An added row belongs to one of the migrations that were missing. */
  lemma {:induction false} AddedFor(
      rows: seq<Row>, heads: Option<Heads>, c: seq<Migration>, k: nat, owner: nat, n: nat) returns (j: nat)
    requires k <= |c| && n < |Added(rows, heads, c, k, owner)|
    ensures j < k && heads.Some? && Inspect(rows, c[j]).Missing?
    ensures Added(rows, heads, c, k, owner)[n] == LedgerRow(c, j, APPLIED, owner, heads.value)
    decreases k
  {
    if n < |Added(rows, heads, c, k - 1, owner)| {
      j := AddedFor(rows, heads, c, k - 1, owner, n);
    } else {
      j := k - 1;
    }
  }

  /** Each missing one has its row. */
  lemma {:induction false} AddedHas(
      rows: seq<Row>, heads: Option<Heads>, c: seq<Migration>, k: nat, owner: nat, i: nat) returns (n: nat)
    requires i < k <= |c| && heads.Some? && Inspect(rows, c[i]).Missing?
    ensures n < |Added(rows, heads, c, k, owner)|
    ensures Added(rows, heads, c, k, owner)[n] == LedgerRow(c, i, APPLIED, owner, heads.value)
    decreases k
  {
    if i == k - 1 {
      n := |Added(rows, heads, c, k - 1, owner)|;
    } else {
      n := AddedHas(rows, heads, c, k - 1, owner, i);
    }
  }

  lemma FoundInFront(rows: seq<Row>, more: seq<Row>, version: Version)
    requires HasVersion(rows, version)
    ensures IndexOf(rows + more, version) == IndexOf(rows, version)
  {
    assert forall j :: 0 <= j < |rows| ==> (rows + more)[j] == rows[j];
  }

  lemma FoundBehind(rows: seq<Row>, more: seq<Row>, version: Version)
    requires !HasVersion(rows, version)
    ensures var i := IndexOf(rows + more, version);
            && i >= |rows| && (i < |rows + more| ==> more[i - |rows|].version == version)
            && (i == |rows + more| ==> forall n :: 0 <= n < |more| ==> more[n].version != version)
  {
    var all := rows + more;
    assert forall j :: 0 <= j < |rows| ==> all[j] == rows[j];
    assert forall n :: 0 <= n < |more| ==> more[n] == all[|rows| + n];
  }

  lemma VersionsDiffer(c: seq<Migration>, i: nat, j: nat)
    requires ValidChain(c) && i < |c| && j < |c| && c[i].version == c[j].version
    ensures i == j
  {
  }

  lemma MissingLater(rows: seq<Row>, heads: Option<Heads>, c: seq<Migration>, k: nat, owner: nat, i: nat)
    requires ValidChain(c) && k <= |c| && i < |c| && Inspect(rows, c[i]).Missing? && (i < k ==> heads.Some?)
    ensures Inspect(rows + Added(rows, heads, c, k, owner), c[i]) == if i < k then Applied else Missing
  {
    var more := Added(rows, heads, c, k, owner);
    var at := IndexOf(rows + more, c[i].version);
    FoundBehind(rows, more, c[i].version);
    if i < k {
      var n := AddedHas(rows, heads, c, k, owner, i);
      assert more[n].version == c[i].version;
    }
    if at < |rows + more| {
      var j := AddedFor(rows, heads, c, k, owner, at - |rows|);
      VersionsDiffer(c, i, j);
      assert (rows + more)[at] == more[at - |rows|];
    }
  }

  /** After the first `k` migrations of the list went through, these are applied and the others stand as before. */
  lemma InspectLater(
      rows: seq<Row>, heads: Option<Heads>, c: seq<Migration>, k: nat, owner: nat, sql: seq<bool>, i: nat)
    requires ValidChain(c) && k <= |c| == |sql| && i < |c| && WentThrough(rows, heads, c, sql, k)
    ensures Inspect(rows + Added(rows, heads, c, k, owner), c[i]) == if i < k then Applied else Inspect(rows, c[i])
  {
    if i < k { assert Verdict(rows, heads, c, i, sql[i]).None?; }
    if Inspect(rows, c[i]).Missing? {
      MissingLater(rows, heads, c, k, owner, i);
    } else {
      var at := IndexOf(rows, c[i].version);
      FoundInFront(rows, Added(rows, heads, c, k, owner), c[i].version);
      assert (rows + Added(rows, heads, c, k, owner))[at] == rows[at];
    }
  }

  lemma {:induction false} AddedAreApplied(rows: seq<Row>, heads: Option<Heads>, c: seq<Migration>, k: nat, owner: nat)
    requires k <= |c|
    ensures AllApplied(Added(rows, heads, c, k, owner))
  {
    if k > 0 { AddedAreApplied(rows, heads, c, k - 1, owner); }
  }

  lemma ActiveStays(rows: seq<Row>, more: seq<Row>)
    requires AllApplied(more)
    ensures AnyActive(rows + more) <==> AnyActive(rows)
  {
    var all := rows + more;
    if AnyActive(rows) {
      var i :| 0 <= i < |rows| && rows[i].state == RUNNING;
      assert all[i].state == RUNNING;
    }
    if AnyActive(all) {
      forall j | |rows| <= j < |all| ensures all[j].state == APPLIED { assert all[j] == more[j - |rows|]; }
      var i :| 0 <= i < |all| && all[i].state == RUNNING;
      assert rows[i].state == RUNNING;
    }
  }

  lemma BaselineAlone(rows: seq<Row>, heads: Option<Heads>, c: seq<Migration>, owner: nat, sql: seq<bool>)
    requires ValidChain(c) && |c| == |sql|
    ensures Inspect(rows, Migration(BASELINE_VERSION, c[0].checksum)) == Inspect(rows, c[0])
    ensures var stop := Verdict(rows, heads, c, 0, sql[0]);
            if stop.Some? then
              StopsWith(rows, heads, c, sql) == stop && AfterMigrate(rows, heads, c, owner, sql) == rows
            else && WentThrough(rows, heads, c, sql, 1)
                 && rows + Added(rows, heads, c, 1, owner)
                    == match InsertBaseline(rows, c[0].checksum, heads)
                       case Some(after) => after
                       case None => rows
  {
    assert c[0] == Migration(BASELINE_VERSION, c[0].checksum);
    assert Added(rows, heads, c, 0, owner) == [];
    assert rows + Added(rows, heads, c, 0, owner) == rows;
    if Verdict(rows, heads, c, 0, sql[0]).Some? { FirstRefusedIs(rows, heads, c, sql, 0); }
  }

  /** What was added for earlier migrations does not change the verdict on the next one. */
  lemma VerdictStays(rows: seq<Row>, heads: Option<Heads>, c: seq<Migration>, owner: nat, sql: seq<bool>, k: nat)
    requires ValidChain(c) && 1 <= k < |c| == |sql| && WentThrough(rows, heads, c, sql, k)
    ensures var middle := rows + Added(rows, heads, c, k, owner);
            Inspect(middle, c[k]) == Inspect(rows, c[k]) && (AnyActive(middle) <==> AnyActive(rows))
  {
    InspectLater(rows, heads, c, k, owner, sql, k);
    AddedAreApplied(rows, heads, c, k, owner);
    ActiveStays(rows, Added(rows, heads, c, k, owner));
  }

  lemma WentThroughOneMore(rows: seq<Row>, heads: Option<Heads>, c: seq<Migration>, sql: seq<bool>, k: nat)
    requires k < |c| == |sql| && WentThrough(rows, heads, c, sql, k) && Verdict(rows, heads, c, k, sql[k]).None?
    ensures WentThrough(rows, heads, c, sql, k + 1)
  {
  }

  lemma NextPasses(
      rows: seq<Row>, heads: Option<Heads>, c: seq<Migration>, owner: nat, sql: bool, k: nat, middle: seq<Row>)
    requires 1 <= k < |c| && Verdict(rows, heads, c, k, sql).None? && middle == rows + Added(rows, heads, c, k, owner)
    requires Inspect(middle, c[k]) == Inspect(rows, c[k]) && (AnyActive(middle) <==> AnyActive(rows))
    ensures ApplyAlone(middle, heads, c[k], c[k - 1].checksum, owner, sql)
            == (rows + Added(rows, heads, c, k + 1, owner), None)
  {
    if Inspect(rows, c[k]).Missing? {
      var row := LedgerRow(c, k, APPLIED, owner, heads.value);
      assert rows + Added(rows, heads, c, k + 1, owner) == middle + [row];
    } else {
      assert rows + Added(rows, heads, c, k + 1, owner) == middle;
    }
  }

  lemma NextStops(
      rows: seq<Row>, heads: Option<Heads>, c: seq<Migration>, owner: nat, sql: bool, k: nat, middle: seq<Row>)
    requires 1 <= k < |c| && Verdict(rows, heads, c, k, sql).Some?
    requires Inspect(middle, c[k]) == Inspect(rows, c[k]) && (AnyActive(middle) <==> AnyActive(rows))
    ensures var stop := Verdict(rows, heads, c, k, sql);
            ApplyAlone(middle, heads, c[k], c[k - 1].checksum, owner, sql)
            == (if stop == Some(SqlFailed) && heads.Some? then middle + [LedgerRow(c, k, FAILED, owner, heads.value)]
                else middle, stop)
  {
  }

  /** The next migration, if it does not stop the process, adds what is missing for it. */
  lemma NextAlone(rows: seq<Row>, heads: Option<Heads>, c: seq<Migration>, owner: nat, sql: seq<bool>, k: nat)
    requires ValidChain(c) && 1 <= k < |c| == |sql| && WentThrough(rows, heads, c, sql, k)
    ensures var (after, error) := ApplyAlone(rows + Added(rows, heads, c, k, owner), heads, c[k],
                                             c[k - 1].checksum, owner, sql[k]);
            && error == Verdict(rows, heads, c, k, sql[k])
            && (error.None? ==> WentThrough(rows, heads, c, sql, k + 1)
                                && after == rows + Added(rows, heads, c, k + 1, owner))
            && (error.Some? ==> error == StopsWith(rows, heads, c, sql)
                                && after == AfterMigrate(rows, heads, c, owner, sql))
  {
    var middle := rows + Added(rows, heads, c, k, owner);
    VerdictStays(rows, heads, c, owner, sql, k);
    if Verdict(rows, heads, c, k, sql[k]).Some? {
      FirstRefusedIs(rows, heads, c, sql, k);
      NextStops(rows, heads, c, owner, sql[k], k, middle);
    } else {
      WentThroughOneMore(rows, heads, c, sql, k);
      NextPasses(rows, heads, c, owner, sql[k], k, middle);
    }
  }

  lemma ThroughToTheEnd(rows: seq<Row>, heads: Option<Heads>, c: seq<Migration>, owner: nat, sql: seq<bool>)
    requires |c| == |sql| && WentThrough(rows, heads, c, sql, |c|)
    ensures StopsWith(rows, heads, c, sql) == None
    ensures AfterMigrate(rows, heads, c, owner, sql) == rows + Added(rows, heads, c, |c|, owner)
  {
    FirstRefusedIs(rows, heads, c, sql, |c|);
  }

  /** Success means that the whole list is APPLIED under its checksums, and that a repeat changes nothing. */
  lemma MigrateAppliesChain(
      rows: seq<Row>, heads: Option<Heads>, c: seq<Migration>, owner: nat, sql: seq<bool>,
      laterHeads: Option<Heads>, laterOwner: nat, laterSql: seq<bool>)
    requires ValidChain(c) && |c| == |sql| == |laterSql| && StopsWith(rows, heads, c, sql).None?
    ensures var after := AfterMigrate(rows, heads, c, owner, sql);
            && (forall i :: 0 <= i < |c| ==> Inspect(after, c[i]) == Applied)
            && StopsWith(after, laterHeads, c, laterSql).None?
            && AfterMigrate(after, laterHeads, c, laterOwner, laterSql) == after
  {
    var after := AfterMigrate(rows, heads, c, owner, sql);
    ThroughToTheEnd(rows, heads, c, owner, sql);
    forall i | 0 <= i < |c| ensures Inspect(after, c[i]) == Applied {
      InspectLater(rows, heads, c, |c|, owner, sql, i);
    }
    NothingMissing(after, laterHeads, c, |c|, laterOwner);
    ThroughToTheEnd(after, laterHeads, c, laterOwner, laterSql);
  }

  lemma {:induction false} NothingMissing(rows: seq<Row>, heads: Option<Heads>, c: seq<Migration>, k: nat, owner: nat)
    requires k <= |c| && forall i :: 0 <= i < k ==> !Inspect(rows, c[i]).Missing?
    ensures Added(rows, heads, c, k, owner) == []
  {
    if k > 0 { NothingMissing(rows, heads, c, k - 1, owner); }
  }

  lemma VerdictOnPrefix(c: seq<Migration>, rows: seq<Row>, heads: Option<Heads>, sql: bool, k: nat)
    requires ValidChain(c) && ChainPrefix(c, rows) && k < |c|
    ensures Inspect(rows, c[k]) == if k >= |rows| then Missing
                                   else if rows[k].state == APPLIED then Applied
                                   else Rejected(ManualReview(rows[k].state))
    ensures Verdict(rows, heads, c, k, sql).None?
            <==> if k < |rows| then rows[k].state == APPLIED else heads.Some? && (k > 0 ==> !AnyActive(rows) && sql)
  {
    FoundAt(c, rows, k);
    if k < |rows| { assert RowOf(c, rows, k); }
  }

  /** The recorded rows among the first `k` are APPLIED, and what is missing can run. */
  predicate CanRun(rows: seq<Row>, heads: Option<Heads>, sql: seq<bool>, k: nat)
    requires k <= |sql|
  {
    && (forall j :: 0 <= j < k && j < |rows| ==> rows[j].state == APPLIED)
    && (|rows| < k ==> heads.Some?) && forall j :: 1 <= j < k && |rows| <= j ==> sql[j]
  }

  lemma ThroughOnPrefix(c: seq<Migration>, rows: seq<Row>, heads: Option<Heads>, sql: seq<bool>, k: nat)
    requires ValidChain(c) && ChainPrefix(c, rows) && k <= |c| == |sql| && WentThrough(rows, heads, c, sql, k)
    ensures CanRun(rows, heads, sql, k)
  {
    forall j | 0 <= j < k
      ensures if j < |rows| then rows[j].state == APPLIED else heads.Some? && (j > 0 ==> sql[j])
    {
      assert Verdict(rows, heads, c, j, sql[j]).None?;
      VerdictOnPrefix(c, rows, heads, sql[j], j);
    }
    if |rows| < k {
      assert Verdict(rows, heads, c, |rows|, sql[|rows|]).None?;
      VerdictOnPrefix(c, rows, heads, sql[|rows|], |rows|);
    }
  }

  lemma CanRunOnPrefix(c: seq<Migration>, rows: seq<Row>, heads: Option<Heads>, sql: seq<bool>, k: nat)
    requires ValidChain(c) && ChainPrefix(c, rows) && k <= |c| == |sql| && CanRun(rows, heads, sql, k)
    ensures WentThrough(rows, heads, c, sql, k)
  {
    forall j | 0 <= j < k ensures Verdict(rows, heads, c, j, sql[j]).None? {
      VerdictOnPrefix(c, rows, heads, sql[j], j);
    }
  }

  lemma AddedNext(c: seq<Migration>, rows: seq<Row>, heads: Option<Heads>, k: nat, owner: nat)
    requires ValidChain(c) && ChainPrefix(c, rows) && 1 <= k <= |c|
    ensures Added(rows, heads, c, k, owner)
            == Added(rows, heads, c, k - 1, owner)
               + if heads.Some? && |rows| < k then [LedgerRow(c, k - 1, APPLIED, owner, heads.value)] else []
  {
    VerdictOnPrefix(c, rows, heads, true, k - 1);
  }

  lemma {:induction false} NothingAddedBefore(
      c: seq<Migration>, rows: seq<Row>, heads: Option<Heads>, k: nat, owner: nat)
    requires ValidChain(c) && ChainPrefix(c, rows) && k <= |c| && k <= |rows|
    ensures Added(rows, heads, c, k, owner) == []
  {
    if k > 0 {
      NothingAddedBefore(c, rows, heads, k - 1, owner);
      AddedNext(c, rows, heads, k, owner);
    }
  }

  /** The first `k` migrations, all APPLIED, and nothing else. */
  predicate Complete(c: seq<Migration>, rows: seq<Row>, k: nat) {
    ChainPrefix(c, rows) && AllApplied(rows) && |rows| == k
  }

  lemma {:induction false} AddedOnPrefix(c: seq<Migration>, rows: seq<Row>, heads: Heads, k: nat, owner: nat)
    requires ValidChain(c) && Complete(c, rows, |rows|) && |rows| <= k <= |c|
    ensures Complete(c, rows + Added(rows, Some(heads), c, k, owner), k)
  {
    var all := rows + Added(rows, Some(heads), c, k, owner);
    if k == |rows| {
      NothingAddedBefore(c, rows, Some(heads), k, owner);
      assert all == rows;
    } else {
      AddedOnPrefix(c, rows, heads, k - 1, owner);
      AddedNext(c, rows, Some(heads), k, owner);
      var middle := rows + Added(rows, Some(heads), c, k - 1, owner);
      NextRowFits(c, middle, k - 1, APPLIED, owner, heads);
      assert all == middle + [LedgerRow(c, k - 1, APPLIED, owner, heads)];
    }
  }

  /** Where the command has gone through, the ledger is a prefix that reaches at least as far. */
  lemma ThroughKeepsPrefix(
      c: seq<Migration>, rows: seq<Row>, heads: Option<Heads>, sql: seq<bool>, k: nat, owner: nat)
    requires ValidChain(c) && ChainPrefix(c, rows) && k <= |c| == |sql| && WentThrough(rows, heads, c, sql, k)
    ensures var all := rows + Added(rows, heads, c, k, owner);
            if k < |rows| then all == rows else Complete(c, all, k)
  {
    ThroughOnPrefix(c, rows, heads, sql, k);
    if k <= |rows| {
      NothingAddedBefore(c, rows, heads, k, owner);
      assert rows + [] == rows;
    } else {
      AddedOnPrefix(c, rows, heads.value, k, owner);
    }
  }

  lemma NextRowFits(c: seq<Migration>, rows: seq<Row>, k: nat, state: RowState, owner: nat, heads: Heads)
    requires ValidChain(c) && ChainPrefix(c, rows) && AllApplied(rows) && |rows| == k < |c|
    requires k == 0 ==> state == APPLIED
    ensures ChainPrefix(c, rows + [LedgerRow(c, k, state, owner, heads)])
  {
    var after := rows + [LedgerRow(c, k, state, owner, heads)];
    forall i | 0 <= i < |after| ensures RowOf(c, after, i) {
      if i < k { assert RowOf(c, rows, i); }
    }
  }

  /**
   On a prefix of the list the command succeeds exactly when no row is left FAILED or RUNNING, the heads it needs
   exist and the missing migrations' SQL works; it then leaves the whole list APPLIED.
  */
  lemma MigrateSucceedsExactly(c: seq<Migration>, rows: seq<Row>, heads: Option<Heads>, owner: nat, sql: seq<bool>)
    requires ValidChain(c) && ChainPrefix(c, rows) && |c| == |sql|
    ensures StopsWith(rows, heads, c, sql).None?
            <==> && AllApplied(rows) && (|rows| == |c| || heads.Some?)
                 && forall k :: 1 <= k < |c| && |rows| <= k ==> sql[k]
    ensures StopsWith(rows, heads, c, sql).None?
            ==> |AfterMigrate(rows, heads, c, owner, sql)| == |c|
                && AllApplied(AfterMigrate(rows, heads, c, owner, sql))
  {
    LedgerFits(c, rows);
    if StopsWith(rows, heads, c, sql).None? {
      assert WentThrough(rows, heads, c, sql, |c|);
      ThroughOnPrefix(c, rows, heads, sql, |c|);
      ThroughKeepsPrefix(c, rows, heads, sql, |c|, owner);
      ThroughToTheEnd(rows, heads, c, owner, sql);
    } else if CanRun(rows, heads, sql, |c|) {
      CanRunOnPrefix(c, rows, heads, sql, |c|);
      ThroughToTheEnd(rows, heads, c, owner, sql);
      assert false;
    }
  }

  /** A prefix of the list stays one, whether the command succeeds or stops. */
  lemma MigrateKeepsPrefix(c: seq<Migration>, rows: seq<Row>, heads: Option<Heads>, owner: nat, sql: seq<bool>)
    requires ValidChain(c) && ChainPrefix(c, rows) && |c| == |sql|
    ensures ChainPrefix(c, AfterMigrate(rows, heads, c, owner, sql))
  {
    var k := FirstRefused(rows, heads, c, sql, 0);
    LedgerFits(c, rows);
    assert WentThrough(rows, heads, c, sql, k);
    ThroughKeepsPrefix(c, rows, heads, sql, k, owner);
    if k < |c| && heads.Some? && StopsWith(rows, heads, c, sql) == Some(SqlFailed) {
      VerdictOnPrefix(c, rows, heads, sql[k], k);
      NextRowFits(c, rows + Added(rows, heads, c, k, owner), k, FAILED, owner, heads.value);
    }
  }

  lemma LedgerFits(c: seq<Migration>, rows: seq<Row>)
    requires ValidChain(c) && ChainPrefix(c, rows)
    ensures |rows| <= |c|
  {
    PrefixIsLinked(c, rows);
  }

  // ---------------------------------------------------------------------------
  // A process that runs alone does what the command does
  // ---------------------------------------------------------------------------

  /** The next thing that happens to the only process: its statement answers, or the migration's own SQL fails. */
  function AloneStep(c: seq<Migration>, s: System, sql: seq<bool>): (r: System)
    requires ValidChain(c) && |s.procs| == 1
    ensures |r.procs| == 1
  {
    var phase := s.procs[0].phase;
    Step(c, s, if phase.Running? && phase.k < |sql| && !sql[phase.k] then StatementFails(0) else Next(0))
  }

  function AloneRun(c: seq<Migration>, s: System, sql: seq<bool>, n: nat): (r: System)
    requires ValidChain(c) && |s.procs| == 1
    ensures |r.procs| == 1
    decreases n
  {
    if n == 0 then s else AloneRun(c, AloneStep(c, s, sql), sql, n - 1)
  }

  lemma {:induction false} AloneRunTwice(c: seq<Migration>, s: System, sql: seq<bool>, n: nat, m: nat)
    requires ValidChain(c) && |s.procs| == 1
    ensures AloneRun(c, AloneRun(c, s, sql, n), sql, m) == AloneRun(c, s, sql, n + m)
    decreases n
  {
    if n > 0 {
      var next := AloneStep(c, s, sql);
      AloneRunTwice(c, next, sql, n - 1, m);
      assert AloneRun(c, s, sql, n) == AloneRun(c, next, sql, n - 1);
      assert AloneRun(c, s, sql, n + m) == AloneRun(c, next, sql, n + m - 1);
    }
  }

  /** Alone, the process gets from one state to the other. */
  ghost predicate Reaches(c: seq<Migration>, s: System, sql: seq<bool>, t: System)
    requires ValidChain(c)
  {
    |s.procs| == 1 && exists n: nat :: AloneRun(c, s, sql, n) == t
  }

  lemma ReachesNext(c: seq<Migration>, s: System, sql: seq<bool>)
    requires ValidChain(c) && |s.procs| == 1
    ensures Reaches(c, s, sql, AloneStep(c, s, sql))
  {
    assert AloneRun(c, AloneStep(c, s, sql), sql, 0) == AloneStep(c, s, sql);
    assert AloneRun(c, s, sql, 1) == AloneStep(c, s, sql);
  }

  lemma ReachesOn(c: seq<Migration>, s: System, sql: seq<bool>, t: System, u: System)
    requires ValidChain(c) && Reaches(c, s, sql, t) && Reaches(c, t, sql, u)
    ensures Reaches(c, s, sql, u)
  {
    var n: nat :| AloneRun(c, s, sql, n) == t;
    var m: nat :| AloneRun(c, t, sql, m) == u;
    AloneRunTwice(c, s, sql, n, m);
  }

  /** The process at a phase, over a ledger. */
  ghost predicate IsAt(s: System, rows: seq<Row>, heads: Option<Heads>, phase: Phase) {
    s.rows == rows && s.heads == heads && |s.procs| == 1 && s.procs[0].phase == phase
  }

  /** From the claimed row on, the SQL decides how it ends. */
  lemma ClaimedRuns(c: seq<Migration>, s: System, sql: seq<bool>, k: nat, row: Row, rows: seq<Row>) returns (t: System)
    requires ValidChain(c) && 1 <= k < |c| == |sql| && |s.procs| == 1 && s.procs[0].phase == Start(k)
    requires s.rows == rows + [row] && Unused(rows, c[k].version) && row.version == c[k].version
    requires row.state == RUNNING && row.owner == Some(0) && s.heads == Some(row.heads)
    ensures Reaches(c, s, sql, t)
    ensures if sql[k] then IsAt(t, rows + [row.(state := APPLIED)], s.heads, Check(k + 1))
                           && t.procs[0].previous == c[k].checksum
            else IsAt(t, rows + [row.(state := FAILED)], s.heads, Stopped)
  {
    assert !HasVersion(rows, row.version);
    FoundLast(rows, row);
    var started := AloneStep(c, s, sql);
    var answered := AloneStep(c, started, sql);
    t := AloneStep(c, answered, sql);
    assert started.rows == s.rows && started.heads == s.heads && started.procs[0].phase == Running(k);
    assert answered.rows == s.rows && answered.heads == s.heads;
    assert answered.procs[0].phase == if sql[k] then Finalize(k) else MarkFailed(k);
    assert s.rows[|rows| := row.(state := APPLIED)] == rows + [row.(state := APPLIED)];
    assert s.rows[|rows| := row.(state := FAILED)] == rows + [row.(state := FAILED)];
    ReachesNext(c, s, sql);
    ReachesNext(c, started, sql);
    ReachesNext(c, answered, sql);
    ReachesOn(c, s, sql, started, answered);
    ReachesOn(c, s, sql, answered, t);
  }

  /** One migration, from its check to the next one's or to the end. */
  lemma MigrationRuns(c: seq<Migration>, s: System, sql: seq<bool>, k: nat) returns (t: System)
    requires ValidChain(c) && 1 <= k < |c| == |sql| && |s.procs| == 1
    requires s.procs[0] == Process(Check(k), c[k - 1].checksum)
    ensures Reaches(c, s, sql, t)
    ensures var (rows, error) := ApplyAlone(s.rows, s.heads, c[k], c[k - 1].checksum, 0, sql[k]);
            if error.None? then IsAt(t, rows, s.heads, Check(k + 1)) && t.procs[0].previous == c[k].checksum
            else IsAt(t, rows, s.heads, Stopped)
  {
    var checked := AloneStep(c, s, sql);
    ReachesNext(c, s, sql);
    if !Inspect(s.rows, c[k]).Missing? {
      t := checked;
    } else {
      assert checked == s.(procs := [Process(Claim(k), c[k - 1].checksum)]);
      var claimed := AloneStep(c, checked, sql);
      ReachesNext(c, checked, sql);
      ReachesOn(c, s, sql, checked, claimed);
      t := claimed;
      if ClaimRow(s.rows, c[k], c[k - 1].checksum, 0, s.heads).Some? {
        var row := Row(c[k].version, c[k].checksum, Some(c[k - 1].checksum), RUNNING, Some(0), s.heads.value);
        InspectDecidesExactly(s.rows, c[k], 0);
        t := ClaimedRuns(c, claimed, sql, k, row, s.rows);
        ReachesOn(c, s, sql, claimed, t);
      }
    }
  }

  /** The process has ended as the command would, and the ledger is the one the command leaves. */
  ghost predicate EndsAsMigrate(
      t: System, c: seq<Migration>, before: seq<Row>, heads: Option<Heads>, sql: seq<bool>)
    requires |c| == |sql|
  {
    IsAt(t, AfterMigrate(before, heads, c, 0, sql), heads,
         if StopsWith(before, heads, c, sql).None? then Done else Stopped)
  }

  lemma NothingLeftEnds(c: seq<Migration>, before: seq<Row>, heads: Option<Heads>, sql: seq<bool>, s: System)
    requires ValidChain(c) && |c| == |sql| && WentThrough(before, heads, c, sql, |c|)
    requires IsAt(s, before + Added(before, heads, c, |c|, 0), heads, Check(|c|))
    ensures EndsAsMigrate(AloneStep(c, s, sql), c, before, heads, sql)
  {
    ThroughToTheEnd(before, heads, c, 0, sql);
  }

  /** The process is about to check migration `k`, and the ones before it went through. */
  ghost predicate AboutTo(
      s: System, c: seq<Migration>, before: seq<Row>, heads: Option<Heads>, sql: seq<bool>, k: nat)
    requires 1 <= k <= |c| == |sql|
  {
    && WentThrough(before, heads, c, sql, k)
    && IsAt(s, before + Added(before, heads, c, k, 0), heads, Check(k)) && s.procs[0].previous == c[k - 1].checksum
  }

  /** One more migration goes through, or it is the one that stops the process. */
  lemma NextRuns(
      c: seq<Migration>, before: seq<Row>, heads: Option<Heads>, sql: seq<bool>, s: System, k: nat) returns (t: System)
    requires ValidChain(c) && 1 <= k < |c| == |sql| && AboutTo(s, c, before, heads, sql, k)
    ensures Reaches(c, s, sql, t)
    ensures if Verdict(before, heads, c, k, sql[k]).Some? then EndsAsMigrate(t, c, before, heads, sql)
            else AboutTo(t, c, before, heads, sql, k + 1)
  {
    t := MigrationRuns(c, s, sql, k);
    NextAlone(before, heads, c, 0, sql, k);
  }

  /** The migrations from `k` on. */
  lemma {:induction false} RestRuns(
      c: seq<Migration>, before: seq<Row>, heads: Option<Heads>, sql: seq<bool>, s: System, k: nat) returns (t: System)
    requires ValidChain(c) && 1 <= k <= |c| == |sql| && AboutTo(s, c, before, heads, sql, k)
    ensures Reaches(c, s, sql, t) && EndsAsMigrate(t, c, before, heads, sql)
    decreases |c| - k
  {
    if k == |c| {
      t := AloneStep(c, s, sql);
      ReachesNext(c, s, sql);
      NothingLeftEnds(c, before, heads, sql, s);
    } else {
      t := NextRuns(c, before, heads, sql, s, k);
      if Verdict(before, heads, c, k, sql[k]).None? {
        var next := t;
        t := RestRuns(c, before, heads, sql, next, k + 1);
        ReachesOn(c, s, sql, next, t);
      }
    }
  }

  /** The baseline is recorded or checked, or it stops the process. */
  lemma BaselineRuns(c: seq<Migration>, rows: seq<Row>, heads: Option<Heads>, sql: seq<bool>) returns (t: System)
    requires ValidChain(c) && |c| == |sql|
    ensures Reaches(c, System(rows, heads, [Process(BaselineCheck, Checksum([]))], []), sql, t)
    ensures if Verdict(rows, heads, c, 0, sql[0]).Some? then EndsAsMigrate(t, c, rows, heads, sql)
            else AboutTo(t, c, rows, heads, sql, 1)
  {
    var s := System(rows, heads, [Process(BaselineCheck, Checksum([]))], []);
    t := AloneStep(c, s, sql);
    BaselineAlone(rows, heads, c, 0, sql);
    ReachesNext(c, s, sql);
    if Inspect(rows, c[0]).Missing? {
      var checked := t;
      assert checked == s.(procs := [Process(BaselineInsert, Checksum([]))]);
      t := AloneStep(c, checked, sql);
      ReachesNext(c, checked, sql);
      ReachesOn(c, s, sql, checked, t);
    }
  }

  /**
   The process machine refines the command: alone on any ledger it ends, as DONE exactly if the command succeeds, and
   leaves the rows the command leaves.
  */
  lemma SoloRunMigrates(c: seq<Migration>, rows: seq<Row>, heads: Option<Heads>, sql: seq<bool>) returns (t: System)
    requires ValidChain(c) && |c| == |sql|
    ensures Reaches(c, System(rows, heads, [Process(BaselineCheck, Checksum([]))], []), sql, t)
    ensures EndsAsMigrate(t, c, rows, heads, sql)
  {
    t := BaselineRuns(c, rows, heads, sql);
    if Verdict(rows, heads, c, 0, sql[0]).None? {
      var next := t;
      t := RestRuns(c, rows, heads, sql, next, 1);
      ReachesOn(c, System(rows, heads, [Process(BaselineCheck, Checksum([]))], []), sql, next, t);
    }
  }
}
