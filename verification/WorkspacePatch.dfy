/**
 Workspace revisions of a generation job.

 A patch names a base revision and an ordered list of file operations, each
 with the digest it expects to find.  It is applied to the base and becomes
 the job's current revision only if the base still is.
 */
module WorkspacePatch {
  import opened Options

  datatype Result<T> = Ok(value: T) | Err(error: Error)

  datatype Error = JobMissing | VersionConflict | JobTerminal | PhaseRunMissing | PlanInvalid | BaseStale | PathInvalid

  // ---------------------------------------------------------------------------
  // Paths
  // ---------------------------------------------------------------------------

  /** `path.split('/')`. */
  function Split(path: string): (parts: seq<string>)
    ensures |parts| > 0
  {
    if path == "" then [""]
    else
      var rest := Split(path[1..]);
      if path[0] == '/' then [""] + rest else [[path[0]] + rest[0]] + rest[1..]
  }

  function Join(parts: seq<string>): string
    requires |parts| > 0
  {
    if |parts| == 1 then parts[0] else parts[0] + "/" + Join(parts[1..])
  }

  predicate BadPart(part: string) { part == "" || part == "." || part == ".." }

  predicate ValidPath(path: string) {
    !(path != "" && path[0] == '/') && forall i :: 0 <= i < |Split(path)| ==> !BadPart(Split(path)[i])
  }

  /** Where a path leads from a directory, given as the list of its names. */
  function Resolve(directory: seq<string>, parts: seq<string>): seq<string>
    decreases |parts|
  {
    if parts == [] then directory
    else if parts[0] == "" || parts[0] == "." then Resolve(directory, parts[1..])
    else if parts[0] == ".." then Resolve(if directory == [] then [] else directory[..|directory| - 1], parts[1..])
    else Resolve(directory + [parts[0]], parts[1..])
  }

  lemma Reassociate(c: char, a: string, b: string)
    ensures ([c] + a) + "/" + b == [c] + (a + "/" + b)
  {
  }

  lemma JoinPrepend(c: char, first: string, rest: seq<string>)
    ensures Join([[c] + first] + rest) == [c] + Join([first] + rest)
  {
    assert ([[c] + first] + rest)[1..] == rest && ([first] + rest)[1..] == rest;
    if rest != [] {
      var tail := Join(rest);
      assert Join([[c] + first] + rest) == ([c] + first) + "/" + tail;
      assert Join([first] + rest) == first + "/" + tail;
      Reassociate(c, first, tail);
    }
  }

  lemma {:induction false} JoinSplit(path: string)
    ensures Join(Split(path)) == path
  {
    if path != "" {
      var rest := Split(path[1..]);
      JoinSplit(path[1..]);
      assert path == [path[0]] + path[1..];
      if path[0] == '/' {
        assert ([""] + rest)[1..] == rest;
        assert Join([""] + rest) == "" + "/" + Join(rest);
      } else {
        JoinPrepend(path[0], rest[0], rest[1..]);
        assert [rest[0]] + rest[1..] == rest;
      }
    }
  }

  lemma {:induction false} SplitOne(name: string)
    requires '/' !in name
    ensures Split(name) == [name]
  {
    if name != "" {
      SplitOne(name[1..]);
      assert name[0] in name;
      assert name == [name[0]] + name[1..];
    }
  }

  lemma {:induction false} SplitAfter(name: string, rest: string)
    requires '/' !in name
    ensures Split(name + "/" + rest) == [name] + Split(rest)
  {
    var path := name + "/" + rest;
    if name == "" {
      assert path == "/" + rest;
      assert path[1..] == rest;
    } else {
      assert name[0] in name;
      assert path[1..] == name[1..] + "/" + rest;
      SplitAfter(name[1..], rest);
      assert name == [name[0]] + name[1..];
    }
  }

  /** The names between the slashes are given back, so a path splits in one way only. */
  lemma {:induction false} SplitJoin(names: seq<string>)
    requires |names| > 0 && forall i :: 0 <= i < |names| ==> '/' !in names[i]
    ensures Split(Join(names)) == names
    decreases |names|
  {
    if |names| == 1 {
      SplitOne(names[0]);
      assert names == [names[0]];
    } else {
      SplitJoin(names[1..]);
      SplitAfter(names[0], Join(names[1..]));
      assert names == [names[0]] + names[1..];
    }
  }

  lemma {:induction false} PartsHaveNoSlash(path: string)
    ensures forall i :: 0 <= i < |Split(path)| ==> '/' !in Split(path)[i]
  {
    if path != "" { PartsHaveNoSlash(path[1..]); }
  }

  /** A path is accepted if and only if it joins proper names: without a slash, not empty and neither dot nor dots. */
  lemma PathIsAcceptedExactly(path: string)
    ensures ValidPath(path)
            <==> exists names: seq<string> :: |names| > 0 && path == Join(names) && ProperNames(names)
  {
    assert path != "" && path[0] == '/' ==> Split(path)[0] == "";
    if ValidPath(path) {
      JoinSplit(path);
      PartsHaveNoSlash(path);
      assert ProperNames(Split(path));
    }
    if exists names: seq<string> :: |names| > 0 && path == Join(names) && ProperNames(names) {
      var names: seq<string> :| |names| > 0 && path == Join(names) && ProperNames(names);
      SplitJoin(names);
    }
  }

  ghost predicate ProperNames(names: seq<string>) {
    forall i :: 0 <= i < |names| ==> '/' !in names[i] && names[i] !in {"", ".", ".."}
  }

  lemma {:induction false} ResolveAppends(directory: seq<string>, parts: seq<string>)
    requires forall i :: 0 <= i < |parts| ==> !BadPart(parts[i])
    ensures Resolve(directory, parts) == directory + parts
    decreases |parts|
  {
    if parts != [] {
      ResolveAppends(directory + [parts[0]], parts[1..]);
      assert directory + [parts[0]] + parts[1..] == directory + parts;
    }
  }

  /** Accepted paths stay below the workspace root, and different paths name different files. */
  lemma ValidPathsAreContained(root: seq<string>, p: string, q: string)
    requires ValidPath(p) && ValidPath(q)
    ensures root < Resolve(root, Split(p))
    ensures Resolve(root, Split(p)) == Resolve(root, Split(q)) ==> p == q
  {
    ResolveAppends(root, Split(p));
    ResolveAppends(root, Split(q));
    JoinSplit(p);
    JoinSplit(q);
    assert (root + Split(p))[|root|..] == Split(p);
    assert (root + Split(q))[|root|..] == Split(q);
  }

  // ---------------------------------------------------------------------------
  // Operations on a tree
  // ---------------------------------------------------------------------------

  type Digest = seq<nat>

  /** SHA-256 of the UTF-8 text; nothing is assumed about it. */
  type Sha = string -> Digest

  datatype File = File(mimeType: string, executable: bool, content: string, digest: Digest, classification: string)

  type Tree = map<string, File>

  datatype OpName = ADD | UPDATE | DELETE | OTHER

  datatype Item = Item(path: Option<string>, op: OpName, expectedDigest: Option<Digest>, content: Option<string>,
                       mimeType: Option<string>, executable: bool)

  function ActualDigest(files: Tree, path: string): Option<Digest> {
    if path in files then Some(files[path].digest) else None
  }

  function TextFile(item: Item, sha: Sha): File
    requires item.content.Some?
  {
    File(if item.mimeType.Some? then item.mimeType.value else "text/plain", item.executable, item.content.value,
         sha(item.content.value), "MODEL_GENERATED")
  }

  function ApplyItem(files: Tree, item: Item, sha: Sha): Result<Tree> {
    if item.path.None? || !ValidPath(item.path.value) then Err(PathInvalid)
    else if item.expectedDigest != ActualDigest(files, item.path.value) then Err(BaseStale)
    else
      match item.op
      case DELETE => Ok(files - {item.path.value})
      case OTHER => Err(PlanInvalid)
      case _ => if item.content.None? then Err(PlanInvalid) else Ok(files[item.path.value := TextFile(item, sha)])
  }

  function ApplyItems(files: Tree, items: seq<Item>, sha: Sha): Result<Tree>
    decreases |items|
  {
    if items == [] then Ok(files)
    else
      var before := ApplyItems(files, items[..|items| - 1], sha);
      if before.Err? then before else ApplyItem(before.value, items[|items| - 1], sha)
  }

  /** The patch loop, which edits the file map in place. */
  method ApplyOperations(base: Tree, items: seq<Item>, sha: Sha) returns (r: Result<Tree>)
    ensures r == ApplyItems(base, items, sha)
  {
    var files := base;
    for i := 0 to |items|
      invariant ApplyItems(base, items[..i], sha) == Ok(files)
    {
      var item := items[i];
      assert items[..i + 1][..i] == items[..i];
      ghost var applied := ApplyItems(base, items[..i + 1], sha);
      assert applied == ApplyItem(files, item, sha);
      ErrorsStick(base, items, i + 1, sha);
      if item.path.None? || !ValidPath(item.path.value) { return Err(PathInvalid); }
      var path := item.path.value;
      var actual := if path in files then Some(files[path].digest) else None;
      if item.expectedDigest != actual { return Err(BaseStale); }
      if item.op == DELETE {
        files := files - {path};
      } else if item.op == ADD || item.op == UPDATE {
        if item.content.None? { return Err(PlanInvalid); }
        files := files[path := TextFile(item, sha)];
      } else {
        return Err(PlanInvalid);
      }
    }
    assert items[..|items|] == items;
    r := Ok(files);
  }

  /**
   An operation is accepted on a contained path whose digest, or absence, is the expected one, if it deletes or
   brings its content; it then touches that path only.
  */
  lemma ItemDecidesExactly(files: Tree, item: Item, sha: Sha)
    ensures var r := ApplyItem(files, item, sha);
            var contained := item.path.Some? && ValidPath(item.path.value);
            var expected := contained && item.expectedDigest == (if item.path.value in files
                                                                 then Some(files[item.path.value].digest) else None);
            var complete := item.op == DELETE || (item.op in {ADD, UPDATE} && item.content.Some?);
            && (r.Ok? <==> expected && complete)
            && (r == Err(PathInvalid) <==> !contained)
            && (r == Err(BaseStale) <==> contained && !expected)
            && (r == Err(PlanInvalid) <==> expected && !complete)
            && (r.Ok? && item.op == DELETE
                ==> && (forall q :: q in r.value <==> q in files && q != item.path.value)
                    && (forall q :: q in r.value ==> r.value[q] == files[q]))
            && (r.Ok? && item.op != DELETE
                ==> r.value == files[item.path.value := File(
                      if item.mimeType.Some? then item.mimeType.value else "text/plain", item.executable,
                      item.content.value, sha(item.content.value), "MODEL_GENERATED")])
  {
  }

  lemma {:induction false} ErrorsStick(files: Tree, items: seq<Item>, k: nat, sha: Sha)
    requires k <= |items|
    ensures ApplyItems(files, items[..k], sha).Err?
        ==> ApplyItems(files, items, sha) == ApplyItems(files, items[..k], sha)
    decreases |items|
  {
    if k < |items| {
      ErrorsStick(files, items[..|items| - 1], k, sha);
      assert items[..|items| - 1][..k] == items[..k];
    } else {
      assert items[..k] == items;
    }
  }

  lemma {:induction false} ApplyConcat(files: Tree, a: seq<Item>, b: seq<Item>, sha: Sha)
    requires ApplyItems(files, a, sha).Ok?
    ensures ApplyItems(files, a + b, sha) == ApplyItems(ApplyItems(files, a, sha).value, b, sha)
    decreases |b|
  {
    if b == [] {
      assert a + b == a;
    } else {
      ApplyConcat(files, a, b[..|b| - 1], sha);
      assert (a + b)[..|a + b| - 1] == a + b[..|b| - 1];
    }
  }

  // ---------------------------------------------------------------------------
  // Undoing a patch
  // ---------------------------------------------------------------------------

  /** A file as this handler writes them. */
  predicate IsText(f: File, sha: Sha) { f.digest == sha(f.content) && f.classification == "MODEL_GENERATED" }

  predicate TextTree(files: Tree, sha: Sha) {
    forall p :: p in files ==> ValidPath(p) && IsText(files[p], sha)
  }

  /** The operation that takes `after` back to `before` at one path. */
  function UndoItem(before: Tree, after: Tree, path: string): Item {
    var expected := ActualDigest(after, path);
    if path in before then
      Item(Some(path), UPDATE, expected, Some(before[path].content), Some(before[path].mimeType),
          before[path].executable)
    else Item(Some(path), DELETE, expected, None, None, false)
  }

  function UndoItems(files: Tree, items: seq<Item>, sha: Sha): seq<Item>
    requires ApplyItems(files, items, sha).Ok?
    decreases |items|
  {
    if items == [] then []
    else
      var front := items[..|items| - 1];
      var before := ApplyItems(files, front, sha).value;
      [UndoItem(before, ApplyItems(files, items, sha).value, items[|items| - 1].path.value)]
          + UndoItems(files, front, sha)
  }

  lemma ItemKeepsText(files: Tree, item: Item, sha: Sha)
    requires TextTree(files, sha) && ApplyItem(files, item, sha).Ok?
    ensures TextTree(ApplyItem(files, item, sha).value, sha)
  {
  }

  lemma {:induction false} ItemsKeepText(files: Tree, items: seq<Item>, sha: Sha)
    requires TextTree(files, sha) && ApplyItems(files, items, sha).Ok?
    ensures TextTree(ApplyItems(files, items, sha).value, sha)
    decreases |items|
  {
    if items != [] {
      ItemsKeepText(files, items[..|items| - 1], sha);
      ItemKeepsText(ApplyItems(files, items[..|items| - 1], sha).value, items[|items| - 1], sha);
    }
  }

  lemma UndoItemRestores(before: Tree, item: Item, sha: Sha)
    requires TextTree(before, sha) && ApplyItem(before, item, sha).Ok?
    ensures var after := ApplyItem(before, item, sha).value;
            ApplyItem(after, UndoItem(before, after, item.path.value), sha) == Ok(before)
  {
    var p := item.path.value;
    var after := ApplyItem(before, item, sha).value;
    if p in before {
      assert TextFile(UndoItem(before, after, p), sha) == before[p];
      assert after[p := before[p]] == before;
    } else {
      assert after - {p} == before;
    }
  }

  /** Every accepted patch has an accepted inverse that restores the tree. */
  lemma {:induction false} UndoRestores(files: Tree, items: seq<Item>, sha: Sha)
    requires TextTree(files, sha) && ApplyItems(files, items, sha).Ok?
    ensures ApplyItems(ApplyItems(files, items, sha).value, UndoItems(files, items, sha), sha) == Ok(files)
    ensures |UndoItems(files, items, sha)| == |items|
    decreases |items|
  {
    if items != [] {
      var front, last := items[..|items| - 1], items[|items| - 1];
      var before := ApplyItems(files, front, sha).value;
      var after := ApplyItems(files, items, sha).value;
      UndoRestores(files, front, sha);
      ItemsKeepText(files, front, sha);
      UndoItemRestores(before, last, sha);
      var first := [UndoItem(before, after, last.path.value)];
      assert first[..0] == [];
      assert ApplyItems(after, first, sha) == Ok(before);
      ApplyConcat(after, first, UndoItems(files, front, sha), sha);
    }
  }

  // ---------------------------------------------------------------------------
  // Jobs and revisions
  // ---------------------------------------------------------------------------

  datatype Revision = Revision(job: nat, number: nat, parent: Option<nat>, files: Tree)

  datatype Job = Job(terminal: bool, version: nat, current: nat, activeRun: Option<nat>)

  /** `active` is RUNNING or REPAIRING. */
  datatype PhaseRun = PhaseRun(job: nat, active: bool)

  /** A row of the patch table: what was applied to which revision. */
  datatype PatchRow = PatchRow(job: nat, base: nat, items: seq<Item>, result: nat)

  datatype State = State(revisions: seq<Revision>, jobs: seq<Job>, runs: seq<PhaseRun>, patches: seq<PatchRow>)

  /** An absent run or base means the job's own; a claimed base may be any revision. */
  datatype Patch = Patch(job: nat, expectedVersion: Option<nat>, run: Option<nat>, base: Option<nat>, items: seq<Item>)

  predicate RunActive(s: State, run: nat, job: nat) {
    run < |s.runs| && s.runs[run].job == job && s.runs[run].active
  }

  function ClaimedBase(s: State, p: Patch): nat
    requires p.job < |s.jobs|
  {
    if p.base.Some? then p.base.value else s.jobs[p.job].current
  }

  function ClaimedRun(s: State, p: Patch): Option<nat>
    requires p.job < |s.jobs|
  {
    if p.run.Some? then p.run else s.jobs[p.job].activeRun
  }

  /** The checks before the loop, in order. */
  function Refusal(s: State, p: Patch): Option<Error> {
    if p.job >= |s.jobs| then Some(JobMissing)
    else if p.expectedVersion.Some? && p.expectedVersion.value != s.jobs[p.job].version then Some(VersionConflict)
    else if s.jobs[p.job].terminal then Some(JobTerminal)
    else
      var run, base := ClaimedRun(s, p), ClaimedBase(s, p);
      if run.None? || !RunActive(s, run.value, p.job) then Some(PhaseRunMissing)
      else if p.items == [] then Some(PlanInvalid)
      else if base >= |s.revisions| || s.revisions[base].job != p.job then Some(BaseStale)
      else None
  }

  function ApplyPatch(s: State, p: Patch, sha: Sha): Result<State> {
    var refused := Refusal(s, p);
    if refused.Some? then Err(refused.value)
    else
      var base := ClaimedBase(s, p);
      var job := s.jobs[p.job];
      var tree := ApplyItems(s.revisions[base].files, p.items, sha);
      if tree.Err? then Err(tree.error)
      else if job.current != base then Err(BaseStale)
      else
        var id := |s.revisions|;
        Ok(State(s.revisions + [Revision(p.job, s.revisions[base].number + 1, Some(base), tree.value)],
                 s.jobs[p.job := job.(current := id, version := job.version + 2)],
                 s.runs,
                 s.patches + [PatchRow(p.job, base, p.items, id)]))
  }

  /** The active phase run a patch is owned by: the one it names, or the job's own. */
  ghost predicate Owned(s: State, p: Patch)
    requires p.job < |s.jobs|
  {
    var run := if p.run.Some? then p.run else s.jobs[p.job].activeRun;
    run.Some? && run.value < |s.runs| && s.runs[run.value].job == p.job && s.runs[run.value].active
  }

  /** The checks before the first operation, each named when it is the first to fail. */
  lemma PatchRefusesInOrder(s: State, p: Patch, sha: Sha)
    ensures var r := ApplyPatch(s, p, sha);
            var known := p.job < |s.jobs|;
            var current := known && (p.expectedVersion.None? || p.expectedVersion.value == s.jobs[p.job].version);
            var going := current && !s.jobs[p.job].terminal;
            && (r == Err(JobMissing) <==> !known)
            && (r == Err(VersionConflict) <==> known && !current)
            && (r == Err(JobTerminal) <==> current && !going)
            && (r == Err(PhaseRunMissing) <==> going && !Owned(s, p))
            && (going && Owned(s, p) && p.items == [] ==> r == Err(PlanInvalid))
  {
    if Refusal(s, p).None? { NoItemRefusesSo(s.revisions[ClaimedBase(s, p)].files, p.items, sha); }
  }

  lemma {:induction false} NoItemRefusesSo(files: Tree, items: seq<Item>, sha: Sha)
    ensures var r := ApplyItems(files, items, sha);
            r.Err? ==> r.error in {PathInvalid, BaseStale, PlanInvalid}
    decreases |items|
  {
    if items != [] { NoItemRefusesSo(files, items[..|items| - 1], sha); }
  }

  /**
   Past those checks a patch is accepted if and only if its base is the job's current revision and every operation is
   accepted in turn.  It then adds one revision on top of that base, its row and the job's new pointer.
  */
  lemma PatchAppliesExactly(s: State, p: Patch, sha: Sha)
    requires p.job < |s.jobs| && !s.jobs[p.job].terminal && Owned(s, p) && p.items != []
    requires p.expectedVersion.None? || p.expectedVersion.value == s.jobs[p.job].version
    ensures var r := ApplyPatch(s, p, sha);
            var job := s.jobs[p.job];
            var base := job.current;
            && (r.Ok?
                <==> && (p.base.None? || p.base.value == base)
                     && base < |s.revisions| && s.revisions[base].job == p.job
                     && ApplyItems(s.revisions[base].files, p.items, sha).Ok?)
            && (r.Ok?
                ==> var t := r.value;
                    && t.revisions == s.revisions + [Revision(
                         p.job, s.revisions[base].number + 1, Some(base),
                         ApplyItems(s.revisions[base].files, p.items, sha).value)]
                    && t.jobs == s.jobs[p.job := Job(job.terminal, job.version + 2, |s.revisions|, job.activeRun)]
                    && t.runs == s.runs && t.patches == s.patches + [PatchRow(p.job, base, p.items, |s.revisions|)])
  {
  }

  class WorkspaceTables {
    var revisions: seq<Revision>
    var jobs: seq<Job>
    var runs: seq<PhaseRun>
    var patches: seq<PatchRow>

    function Contents(): State
      reads this
    {
      State(revisions, jobs, runs, patches)
    }

    constructor (s: State)
      ensures Contents() == s
    {
      revisions, jobs, runs, patches := s.revisions, s.jobs, s.runs, s.patches;
    }

    /** `generation.workspace.patch`: all rows are written, or none. */
    method PatchWorkspace(p: Patch, sha: Sha) returns (error: Option<Error>)
      modifies this
      ensures match ApplyPatch(old(Contents()), p, sha)
              case Ok(after) => error == None && Contents() == after
              case Err(e) => error == Some(e) && Contents() == old(Contents())
      ensures Contents() == Step(old(Contents()), PatchOp(p), sha)
    {
      var refused := Refusal(Contents(), p);
      if refused.Some? { return refused; }
      var job := jobs[p.job];
      var base := if p.base.Some? then p.base.value else job.current;
      var tree := ApplyOperations(revisions[base].files, p.items, sha);
      if tree.Err? { return Some(tree.error); }
      if job.current != base { return Some(BaseStale); }
      var id := |revisions|;
      revisions := revisions + [Revision(p.job, revisions[base].number + 1, Some(base), tree.value)];
      patches := patches + [PatchRow(p.job, base, p.items, id)];
      jobs := jobs[p.job := job.(current := id, version := job.version + 2)];
      error := None;
    }
  }

  /** Other commands of the same tables: they create jobs at an empty revision 0 and move runs and lifecycles. */
  datatype Op =
    | PatchOp(patch: Patch)
    | CreateJob
    | CreateRun(job: nat)
    | SetRun(run: nat, active: bool)
    | SetJob(job: nat, terminal: bool, activeRun: Option<nat>)

  function Step(s: State, op: Op, sha: Sha): State {
    match op
    case PatchOp(p) =>
      var r := ApplyPatch(s, p, sha);
      if r.Ok? then r.value else s
    case CreateJob =>
      s.(revisions := s.revisions + [Revision(|s.jobs|, 0, None, map[])],
         jobs := s.jobs + [Job(false, 2, |s.revisions|, None)])
    case CreateRun(job) => s.(runs := s.runs + [PhaseRun(job, true)])
    case SetRun(run, active) => if run < |s.runs| then s.(runs := s.runs[run := s.runs[run].(active := active)]) else s
    case SetJob(job, terminal, activeRun) =>
      if job < |s.jobs| then
        s.(jobs := s.jobs[job :=
            s.jobs[job].(terminal := terminal, activeRun := activeRun, version := s.jobs[job].version + 1)])
      else s
  }

  const EMPTY: State := State([], [], [], [])

  function Run(s: State, ops: seq<Op>, sha: Sha): State
    decreases |ops|
  {
    if ops == [] then s else Step(Run(s, ops[..|ops| - 1], sha), ops[|ops| - 1], sha)
  }

  // ---------------------------------------------------------------------------
  // Invariant
  // ---------------------------------------------------------------------------

  /** Everything accepted for one job, in order. */
  function AcceptedItems(patches: seq<PatchRow>, job: nat): seq<Item> {
    if patches == [] then []
    else
      var last := patches[|patches| - 1];
      AcceptedItems(patches[..|patches| - 1], job) + if last.job == job then last.items else []
  }

  function AcceptedPatches(patches: seq<PatchRow>, job: nat): nat {
    if patches == [] then 0
    else AcceptedPatches(patches[..|patches| - 1], job) + if patches[|patches| - 1].job == job then 1 else 0
  }

  /** The revision the last accepted patch of the job produced. */
  predicate JobOk(s: State, job: nat, sha: Sha)
    requires job < |s.jobs|
  {
    var current := s.jobs[job].current;
    && current < |s.revisions| && s.revisions[current].job == job
    && ApplyItems(map[], AcceptedItems(s.patches, job), sha) == Ok(s.revisions[current].files)
    && s.revisions[current].number == AcceptedPatches(s.patches, job)
  }

  predicate RevisionOk(s: State, r: nat, sha: Sha)
    requires r < |s.revisions|
  {
    var v := s.revisions[r];
    && v.job < |s.jobs| && TextTree(v.files, sha)
    && match v.parent
       case None => v.number == 0 && v.files == map[]
       case Some(p) => p < r && s.revisions[p].job == v.job && v.number == s.revisions[p].number + 1
  }

  ghost predicate Consistent(s: State, sha: Sha) {
    && (forall j :: 0 <= j < |s.jobs| ==> JobOk(s, j, sha))
    && (forall r :: 0 <= r < |s.revisions| ==> RevisionOk(s, r, sha))
    && (forall n :: 0 <= n < |s.patches| ==> s.patches[n].job < |s.jobs|)
  }

  lemma {:induction false} NoPatches(patches: seq<PatchRow>, job: nat)
    requires forall n :: 0 <= n < |patches| ==> patches[n].job != job
    ensures AcceptedItems(patches, job) == [] && AcceptedPatches(patches, job) == 0
    decreases |patches|
  {
    if patches != [] { NoPatches(patches[..|patches| - 1], job); }
  }

  lemma LogAppend(patches: seq<PatchRow>, row: PatchRow, job: nat)
    ensures AcceptedItems(patches + [row], job)
            == if row.job == job then AcceptedItems(patches, job) + row.items else AcceptedItems(patches, job)
    ensures AcceptedPatches(patches + [row], job) == AcceptedPatches(patches, job) + (if row.job == job then 1 else 0)
  {
    assert (patches + [row])[..|patches|] == patches;
  }

  lemma PatchKeepsJob(s: State, p: Patch, j: nat, sha: Sha)
    requires ApplyPatch(s, p, sha).Ok? && j < |s.jobs| && JobOk(s, j, sha)
    ensures JobOk(ApplyPatch(s, p, sha).value, j, sha)
  {
    var t := ApplyPatch(s, p, sha).value;
    var base := ClaimedBase(s, p);
    LogAppend(s.patches, PatchRow(p.job, base, p.items, |s.revisions|), j);
    if j == p.job {
      ApplyConcat(map[], AcceptedItems(s.patches, j), p.items, sha);
      assert t.revisions[t.jobs[j].current].files == ApplyItems(s.revisions[base].files, p.items, sha).value;
    } else {
      assert t.jobs[j] == s.jobs[j];
    }
  }

  lemma PatchKeepsRevision(s: State, p: Patch, r: nat, sha: Sha)
    requires ApplyPatch(s, p, sha).Ok? && r <= |s.revisions|
    requires forall k :: 0 <= k < |s.revisions| ==> RevisionOk(s, k, sha)
    ensures RevisionOk(ApplyPatch(s, p, sha).value, r, sha)
  {
    if r < |s.revisions| {
      assert RevisionOk(s, r, sha);
    } else {
      assert RevisionOk(s, ClaimedBase(s, p), sha);
      ItemsKeepText(s.revisions[ClaimedBase(s, p)].files, p.items, sha);
    }
  }

  lemma PatchKeepsConsistent(s: State, p: Patch, sha: Sha)
    requires Consistent(s, sha) && ApplyPatch(s, p, sha).Ok?
    ensures Consistent(ApplyPatch(s, p, sha).value, sha)
  {
    var t := ApplyPatch(s, p, sha).value;
    forall j | 0 <= j < |t.jobs| ensures JobOk(t, j, sha) {
      PatchKeepsJob(s, p, j, sha);
    }
    forall r | 0 <= r < |t.revisions| ensures RevisionOk(t, r, sha) {
      PatchKeepsRevision(s, p, r, sha);
    }
  }

  lemma CreateKeepsConsistent(s: State, sha: Sha)
    requires Consistent(s, sha)
    ensures Consistent(Step(s, CreateJob, sha), sha)
  {
    var t := Step(s, CreateJob, sha);
    NoPatches(s.patches, |s.jobs|);
    forall j | 0 <= j < |t.jobs| ensures JobOk(t, j, sha) {
      if j < |s.jobs| { assert JobOk(s, j, sha); }
    }
    forall r | 0 <= r < |t.revisions| ensures RevisionOk(t, r, sha) {
      if r < |s.revisions| { assert RevisionOk(s, r, sha); }
    }
  }

  lemma StepKeepsConsistent(s: State, op: Op, sha: Sha)
    requires Consistent(s, sha)
    ensures Consistent(Step(s, op, sha), sha)
  {
    var t := Step(s, op, sha);
    match op
    case PatchOp(p) => if ApplyPatch(s, p, sha).Ok? { PatchKeepsConsistent(s, p, sha); }
    case CreateJob => CreateKeepsConsistent(s, sha);
    case _ =>
      forall j | 0 <= j < |t.jobs| ensures JobOk(t, j, sha) { assert JobOk(s, j, sha); }
      forall r | 0 <= r < |t.revisions| ensures RevisionOk(t, r, sha) { assert RevisionOk(s, r, sha); }
  }

  lemma {:induction false} RunIsConsistent(ops: seq<Op>, sha: Sha)
    ensures Consistent(Run(EMPTY, ops, sha), sha)
    decreases |ops|
  {
    if ops != [] {
      RunIsConsistent(ops[..|ops| - 1], sha);
      StepKeepsConsistent(Run(EMPTY, ops[..|ops| - 1], sha), ops[|ops| - 1], sha);
    }
  }

  // ---------------------------------------------------------------------------
  // What holds after every run
  // ---------------------------------------------------------------------------

  /** No update is lost: the current tree is the fold of all accepted operations, and its number counts the patches. */
  lemma CurrentTreeIsFold(ops: seq<Op>, job: nat, sha: Sha)
    requires job < |Run(EMPTY, ops, sha).jobs|
    ensures var s := Run(EMPTY, ops, sha);
            var current := s.jobs[job].current;
            && current < |s.revisions|
            && ApplyItems(map[], AcceptedItems(s.patches, job), sha) == Ok(s.revisions[current].files)
            && s.revisions[current].number == AcceptedPatches(s.patches, job)
  {
    RunIsConsistent(ops, sha);
    assert JobOk(Run(EMPTY, ops, sha), job, sha);
  }

  /** Along the parent links of any revision the numbers fall by one to the empty revision 0. */
  lemma RevisionsFormChain(ops: seq<Op>, r: nat, sha: Sha)
    requires r < |Run(EMPTY, ops, sha).revisions|
    ensures var s := Run(EMPTY, ops, sha);
            var v := s.revisions[r];
            && (v.parent.None? ==> v.number == 0 && v.files == map[])
            && (v.parent.Some? ==> v.parent.value < r && s.revisions[v.parent.value].job == v.job
                                   && v.number == s.revisions[v.parent.value].number + 1)
            && forall p :: p in v.files ==> ValidPath(p)
  {
    RunIsConsistent(ops, sha);
    assert RevisionOk(Run(EMPTY, ops, sha), r, sha);
  }

  /** No command rewrites a revision, and a job's current revision only moves to one created later. */
  lemma {:induction false} HistoryOnlyGrows(s: State, ops: seq<Op>, job: nat, sha: Sha)
    requires job < |s.jobs|
    ensures var t := Run(s, ops, sha);
            && |s.revisions| <= |t.revisions| && t.revisions[..|s.revisions|] == s.revisions
            && job < |t.jobs|
            && (t.jobs[job].current == s.jobs[job].current || t.jobs[job].current >= |s.revisions|)
    decreases |ops|
  {
    if ops != [] {
      var front, last := ops[..|ops| - 1], ops[|ops| - 1];
      HistoryOnlyGrows(s, front, job, sha);
      StepOnlyGrows(Run(s, front, sha), last, job, sha);
      var middle := Run(s, front, sha);
      assert Run(s, ops, sha) == Step(middle, last, sha);
      assert Step(middle, last, sha).revisions[..|s.revisions|] == middle.revisions[..|s.revisions|];
    }
  }

  lemma StepOnlyGrows(s: State, op: Op, job: nat, sha: Sha)
    requires job < |s.jobs|
    ensures var t := Step(s, op, sha);
            && |s.revisions| <= |t.revisions| && t.revisions[..|s.revisions|] == s.revisions
            && job < |t.jobs|
            && (t.jobs[job].current == s.jobs[job].current || t.jobs[job].current >= |s.revisions|)
  {
  }

  /**
   Once a patch is accepted, no other patch of its job on the same base ever is, whatever is done in between,
   and the revisions there were stay as they are.
  */
  lemma StaleBaseIsRefused(s: State, first: Patch, between: seq<Op>, second: Patch, sha: Sha)
    requires ApplyPatch(s, first, sha).Ok?
    requires first.job == second.job && second.base == Some(ClaimedBase(s, first))
    ensures var t := Run(ApplyPatch(s, first, sha).value, between, sha);
            && ApplyPatch(t, second, sha).Err?
            && |s.revisions| < |t.revisions| && t.revisions[..|s.revisions|] == s.revisions
  {
    var middle := ApplyPatch(s, first, sha).value;
    HistoryOnlyGrows(middle, between, first.job, sha);
    var t := Run(middle, between, sha);
    assert t.revisions[..|s.revisions|] == middle.revisions[..|s.revisions|];
  }

  /** Every row's base lies below its job's current revision, and later rows of one job have later bases. */
  predicate BasesOk(s: State) {
    && (forall n :: 0 <= n < |s.patches| ==> BaseIsPast(s, n))
    && (forall m, n :: 0 <= m < n < |s.patches| && s.patches[m].job == s.patches[n].job
                       ==> s.patches[m].base < s.patches[n].base)
  }

  predicate BaseIsPast(s: State, n: nat)
    requires n < |s.patches|
  {
    var row := s.patches[n];
    row.job < |s.jobs| && row.base < s.jobs[row.job].current < |s.revisions|
  }

  lemma StepKeepsBases(s: State, op: Op, sha: Sha)
    requires BasesOk(s)
    ensures BasesOk(Step(s, op, sha))
  {
    var t := Step(s, op, sha);
    forall n | 0 <= n < |t.patches| ensures BaseIsPast(t, n) {
      if n < |s.patches| { assert BaseIsPast(s, n); }
    }
    forall m, n | 0 <= m < n < |t.patches| && t.patches[m].job == t.patches[n].job
      ensures t.patches[m].base < t.patches[n].base
    {
      assert BaseIsPast(s, m);
    }
  }

  /** After any run, the accepted patches of one job were made against different revisions, in their order. */
  lemma {:induction false} AcceptedBasesIncrease(ops: seq<Op>, sha: Sha)
    ensures BasesOk(Run(EMPTY, ops, sha))
    ensures var patches := Run(EMPTY, ops, sha).patches;
            forall m, n :: 0 <= m < n < |patches| && patches[m].job == patches[n].job
                           ==> patches[m].base < patches[n].base
    decreases |ops|
  {
    if ops != [] {
      AcceptedBasesIncrease(ops[..|ops| - 1], sha);
      StepKeepsBases(Run(EMPTY, ops[..|ops| - 1], sha), ops[|ops| - 1], sha);
    }
  }

  /** After any run, an accepted patch can be undone by a patch that is accepted and restores the tree. */
  lemma AcceptedPatchHasInverse(ops: seq<Op>, p: Patch, sha: Sha)
    requires ApplyPatch(Run(EMPTY, ops, sha), p, sha).Ok?
    ensures var s := Run(EMPTY, ops, sha);
            var t := ApplyPatch(s, p, sha).value;
            var before := s.revisions[ClaimedBase(s, p)].files;
            && ApplyItems(before, p.items, sha).Ok?
            && var undo := Patch(p.job, None, p.run, None, UndoItems(before, p.items, sha));
               var u := ApplyPatch(t, undo, sha);
               && u.Ok? && u.value.jobs[p.job].current < |u.value.revisions|
               && u.value.revisions[u.value.jobs[p.job].current].files == before
  {
    var s := Run(EMPTY, ops, sha);
    RunIsConsistent(ops, sha);
    assert RevisionOk(s, ClaimedBase(s, p), sha);
    UndoRestores(s.revisions[ClaimedBase(s, p)].files, p.items, sha);
  }
}
