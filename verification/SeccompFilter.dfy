/**
 The seccomp filter generator of the sandbox launcher.

 The launcher writes a classic BPF program from two lists.  Jumps are relative
 and 8 bits wide, and some blocks overwrite the accumulator that later tests
 rely on.  Interpreting the emitted program is shown to give exactly the
 declared policy.
 */
module SeccompFilter {
  import opened Bits

  type Word = w: nat | w < 0x1_0000_0000

  /** Bitwise conjunction of two 32-bit words. */
  function BitAnd(a: Word, b: Word): (r: Word)
    ensures r <= a
  {
    if a == 0 || b == 0 then 0
    else (if a % 2 == 1 && b % 2 == 1 then 1 else 0) + 2 * BitAnd(a / 2, b / 2)
  }

  /** Bitwise complement of a 32-bit word. */
  function BitNot(a: Word): Word { 0xFFFF_FFFF - a }

  /** The words of `struct seccomp_data` the filter loads (low halves of the arguments). */
  datatype Field = Arch | Nr | Arg0 | Arg4

  datatype Data = Data(arch: Word, nr: Word, arg0: Word, arg4: Word)

  function Load(d: Data, f: Field): Word {
    match f
    case Arch => d.arch
    case Nr => d.nr
    case Arg0 => d.arg0
    case Arg4 => d.arg4
  }

  datatype Verdict = Allow | KillProcess | ErrnoEperm | ErrnoEnosys

  /** BPF_LD|W|ABS, BPF_ALU|AND|K, BPF_JMP|JEQ|K and BPF_RET|K. */
  datatype Insn = LdAbs(field: Field) | And(k: Word) | Jeq(k: Word, jt: nat, jf: nat) | Ret(verdict: Verdict)

  /** The numbers a build of the launcher takes from the kernel headers. */
  datatype Abi = Abi(
    nativeArch: Word, ioUringSetup: Word, ioUringEnter: Word, ioUringRegister: Word,
    clone3: Word, clone: Word, execveat: Word, prctl: Word,
    threadFlags: Word, vmAndThread: Word, atEmptyPath: Word)

  const FILTER_SLOTS := 256

  function Uint8(n: nat): nat { n % 256 }

  // ---------------------------------------------------------------------------
  // Interpreter
  // ---------------------------------------------------------------------------

  datatype Outcome = Returned(verdict: Verdict) | Fault

  /** Runs the program from `pc` with accumulator `acc`; leaving the program is a fault. */
  function Exec(p: seq<Insn>, pc: nat, acc: Word, d: Data): Outcome
    decreases |p| - pc
  {
    if pc >= |p| then Fault
    else
      match p[pc]
      case LdAbs(f) => Exec(p, pc + 1, Load(d, f), d)
      case And(k) => Exec(p, pc + 1, BitAnd(acc, k), d)
      case Jeq(k, jt, jf) => if acc == k then Exec(p, pc + 1 + jt, acc, d) else Exec(p, pc + 1 + jf, acc, d)
      case Ret(v) => Returned(v)
  }

  /** The positions at which the filter tests the system call number. */
  predicate TopLevelTest(pc: nat, prctls: nat, allowed: nat) {
    pc == 4 || pc == 6 || pc == 8 || pc == 10 || pc == 12 || pc == 22 || pc == 30
    || 34 + prctls <= pc < 34 + prctls + allowed
  }

  /** The run from `pc` stays inside the program, and every top-level test it reaches sees the system call number. */
  predicate NrAtTests(p: seq<Insn>, pc: nat, acc: Word, d: Data, prctls: nat, allowed: nat)
    decreases |p| - pc
  {
    && pc < |p|
    && (TopLevelTest(pc, prctls, allowed) ==> acc == d.nr)
    && match p[pc]
       case LdAbs(f) => NrAtTests(p, pc + 1, Load(d, f), d, prctls, allowed)
       case And(k) => NrAtTests(p, pc + 1, BitAnd(acc, k), d, prctls, allowed)
       case Jeq(k, jt, jf) =>
         if acc == k then NrAtTests(p, pc + 1 + jt, acc, d, prctls, allowed)
         else NrAtTests(p, pc + 1 + jf, acc, d, prctls, allowed)
       case Ret(_) => true
  }

  // ---------------------------------------------------------------------------
  // The declared policy
  // ---------------------------------------------------------------------------

  /** A thread-only clone: no flag outside the thread set, and both CLONE_VM and CLONE_THREAD. */
  predicate ThreadClone(abi: Abi, flags: Word) {
    BitAnd(flags, BitNot(abi.threadFlags)) == 0 && BitAnd(flags, abi.vmAndThread) == abi.vmAndThread
  }

  function Policy(abi: Abi, fd: Word, prctls: seq<Word>, allowed: seq<Word>, d: Data): Verdict {
    if d.arch != abi.nativeArch then KillProcess
    else if d.nr == abi.ioUringSetup || d.nr == abi.ioUringEnter || d.nr == abi.ioUringRegister then ErrnoEperm
    else if d.nr == abi.clone3 then ErrnoEnosys
    else if d.nr == abi.clone then
      if ThreadClone(abi, d.arg0) then Allow else KillProcess
    else if d.nr == abi.execveat then
      if d.arg0 == fd && d.arg4 == abi.atEmptyPath then Allow else KillProcess
    else if d.nr == abi.prctl then
      if d.arg0 in prctls then Allow else KillProcess
    else if d.nr in allowed then Allow
    else KillProcess
  }

  // ---------------------------------------------------------------------------
  // The emitted program
  // ---------------------------------------------------------------------------

  /** Loads one word and kills the process unless it is `value`. */
  function Demand(field: Field, value: Word): seq<Insn> {
    [LdAbs(field), Jeq(value, 1, 0), Ret(KillProcess)]
  }

  /** Loads one word and kills the process unless its bits under `mask` are `value`. */
  function DemandMasked(field: Field, mask: Word, value: Word): seq<Insn> {
    [LdAbs(field), And(mask), Jeq(value, 1, 0), Ret(KillProcess)]
  }

  function ArchGuard(abi: Abi): seq<Insn> {
    Demand(Arch, abi.nativeArch) + [LdAbs(Nr)]
  }

  function Refuse(nr: Word, verdict: Verdict): seq<Insn> {
    [Jeq(nr, 0, 1), Ret(verdict)]
  }

  function IoUringBlock(numbers: seq<Word>): seq<Insn> {
    if numbers == [] then [] else IoUringBlock(numbers[..|numbers| - 1]) + Refuse(numbers[|numbers| - 1], ErrnoEperm)
  }

  function CloneBlock(abi: Abi): seq<Insn> {
    [Jeq(abi.clone, 0, Uint8(9))] + DemandMasked(Arg0, BitNot(abi.threadFlags), 0)
    + DemandMasked(Arg0, abi.vmAndThread, abi.vmAndThread) + [Ret(Allow)]
  }

  function ExecveatBlock(abi: Abi, fd: Word): seq<Insn> {
    [Jeq(abi.execveat, 0, Uint8(7))] + Demand(Arg0, fd) + Demand(Arg4, abi.atEmptyPath) + [Ret(Allow)]
  }

  /** One test per entry; a hit jumps over the rest of the list and the kill. */
  function ListTests(list: seq<Word>): seq<Insn> {
    seq(|list|, i requires 0 <= i < |list| => Jeq(list[i], Uint8(|list| - i), 0))
  }

  function ListBlock(list: seq<Word>): seq<Insn> {
    ListTests(list) + [Ret(KillProcess), Ret(Allow)]
  }

  function PrctlBlock(abi: Abi, prctls: seq<Word>): seq<Insn> {
    [Jeq(abi.prctl, 0, Uint8(1 + |prctls| + 2)), LdAbs(Arg0)] + ListBlock(prctls)
  }

  function IoUringNumbers(abi: Abi): seq<Word> {
    [abi.ioUringSetup, abi.ioUringEnter, abi.ioUringRegister]
  }

  function Refusals(abi: Abi): seq<Insn> {
    ArchGuard(abi) + IoUringBlock(IoUringNumbers(abi)) + Refuse(abi.clone3, ErrnoEnosys)
  }

  function Prologue(abi: Abi, fd: Word): seq<Insn> {
    Refusals(abi) + CloneBlock(abi) + ExecveatBlock(abi, fd)
  }

  function Program(abi: Abi, fd: Word, prctls: seq<Word>, allowed: seq<Word>): seq<Insn> {
    Prologue(abi, fd) + PrctlBlock(abi, prctls) + ListBlock(allowed)
  }

  // ---------------------------------------------------------------------------
  // install_seccomp_allowlist
  // ---------------------------------------------------------------------------

  class FilterProgram {
    const filter: array<Insn>
    var index: nat

    ghost predicate Valid()
      reads this
    {
      filter.Length == FILTER_SLOTS && index <= FILTER_SLOTS
    }

    ghost function Emitted(): seq<Insn>
      requires Valid()
      reads this, filter
    {
      filter[..index]
    }

    constructor ()
      ensures Valid() && fresh(filter) && Emitted() == []
    {
      filter := new Insn[FILTER_SLOTS](_ => Ret(KillProcess));
      index := 0;
    }

    method AppendFilter(instruction: Insn)
      requires Valid() && index < FILTER_SLOTS
      modifies this, filter
      ensures Valid() && Emitted() == old(Emitted()) + [instruction]
    {
      filter[index] := instruction;
      index := index + 1;
    }

    method AppendAll(block: seq<Insn>)
      requires Valid() && index + |block| <= FILTER_SLOTS
      modifies this, filter
      ensures Valid() && index == old(index) + |block| && Emitted() == old(Emitted()) + block
    {
      for i := 0 to |block|
        invariant Valid() && index == old(index) + i
        invariant Emitted() == old(Emitted()) + block[..i]
      {
        assert block[..i + 1] == block[..i] + [block[i]];
        AppendFilter(block[i]);
      }
      assert block[..|block|] == block;
    }

    /** The allowlist loops: the jump distance is what remains of the list. */
    method AppendList(list: seq<Word>)
      requires Valid() && index + |list| + 2 <= FILTER_SLOTS
      modifies this, filter
      ensures Valid() && index == old(index) + |list| + 2 && Emitted() == old(Emitted()) + ListBlock(list)
    {
      for i := 0 to |list|
        invariant Valid() && index == old(index) + i
        invariant Emitted() == old(Emitted()) + ListTests(list)[..i]
      {
        var remaining := |list| - i;
        assert ListTests(list)[..i + 1] == ListTests(list)[..i] + [Jeq(list[i], Uint8(remaining), 0)];
        AppendFilter(Jeq(list[i], Uint8(remaining), 0));
      }
      assert ListTests(list)[..|list|] == ListTests(list);
      AppendFilter(Ret(KillProcess));
      AppendFilter(Ret(Allow));
      assert Emitted() == old(Emitted()) + ListBlock(list);
    }

    method AppendIoUring(numbers: seq<Word>)
      requires Valid() && index + 2 * |numbers| <= FILTER_SLOTS
      modifies this, filter
      ensures Valid() && index == old(index) + 2 * |numbers|
      ensures Emitted() == old(Emitted()) + IoUringBlock(numbers)
    {
      for i := 0 to |numbers|
        invariant Valid() && index == old(index) + 2 * i
        invariant Emitted() == old(Emitted()) + IoUringBlock(numbers[..i])
      {
        assert numbers[..i + 1][..i] == numbers[..i];
        assert IoUringBlock(numbers[..i + 1]) == IoUringBlock(numbers[..i]) + Refuse(numbers[i], ErrnoEperm);
        AppendFilter(Jeq(numbers[i], 0, 1));
        AppendFilter(Ret(ErrnoEperm));
      }
      assert numbers[..|numbers|] == numbers;
    }

    /** The program fits the 256 slots exactly when the two lists total at most 220 entries. */
    method InstallAllowlist(abi: Abi, fd: Word, prctls: seq<Word>, allowed: seq<Word>)
      requires Valid() && index == 0 && |prctls| + |allowed| <= 220
      modifies this, filter
      ensures Valid() && Emitted() == Program(abi, fd, prctls, allowed)
      ensures index == 36 + |prctls| + |allowed|
    {
      AppendPrologue(abi, fd);
      AppendPrctl(abi, prctls);
      AppendList(allowed);
    }

    method AppendPrologue(abi: Abi, fd: Word)
      requires Valid() && index == 0
      modifies this, filter
      ensures Valid() && index == 30 && Emitted() == Prologue(abi, fd)
    {
      AppendRefusals(abi);
      AppendAll(CloneBlock(abi));
      AppendAll(ExecveatBlock(abi, fd));
    }

    method AppendRefusals(abi: Abi)
      requires Valid() && index == 0
      modifies this, filter
      ensures Valid() && index == 12 && Emitted() == Refusals(abi)
    {
      AppendAll(ArchGuard(abi));
      AppendIoUring(IoUringNumbers(abi));
      AppendAll(Refuse(abi.clone3, ErrnoEnosys));
    }

    method AppendPrctl(abi: Abi, prctls: seq<Word>)
      requires Valid() && index + |prctls| + 4 <= FILTER_SLOTS
      modifies this, filter
      ensures Valid() && index == old(index) + |prctls| + 4
      ensures Emitted() == old(Emitted()) + PrctlBlock(abi, prctls)
    {
      var prctlBlockLength := 1 + |prctls| + 2;
      AppendFilter(Jeq(abi.prctl, 0, Uint8(prctlBlockLength)));
      AppendFilter(LdAbs(Arg0));
      AppendList(prctls);
    }
  }

  // ---------------------------------------------------------------------------
  // What each block does
  // ---------------------------------------------------------------------------

  /** `block` sits in `p` at `at`. */
  predicate Placed(p: seq<Insn>, at: nat, block: seq<Insn>) {
    at + |block| <= |p| && forall i :: 0 <= i < |block| ==> p[at + i] == block[i]
  }

  lemma PlacedHead(p: seq<Insn>, at: nat, front: seq<Insn>, back: seq<Insn>)
    requires Placed(p, at, front + back)
    ensures Placed(p, at, front) && Placed(p, at + |front|, back)
  {
    forall i | 0 <= i < |front| ensures p[at + i] == front[i] {
      assert (front + back)[i] == front[i];
    }
    forall i | 0 <= i < |back| ensures p[at + |front| + i] == back[i] {
      assert (front + back)[|front| + i] == back[i];
    }
  }

  predicate At(p: seq<Insn>, at: nat, insn: Insn) {
    at < |p| && p[at] == insn
  }

  predicate RefuseAt(p: seq<Insn>, at: nat, nr: Word, verdict: Verdict) {
    At(p, at, Jeq(nr, 0, 1)) && At(p, at + 1, Ret(verdict))
  }

  predicate DemandAt(p: seq<Insn>, at: nat, f: Field, value: Word) {
    At(p, at, LdAbs(f)) && At(p, at + 1, Jeq(value, 1, 0)) && At(p, at + 2, Ret(KillProcess))
  }

  predicate DemandMaskedAt(p: seq<Insn>, at: nat, f: Field, mask: Word, value: Word) {
    At(p, at, LdAbs(f)) && At(p, at + 1, And(mask)) && At(p, at + 2, Jeq(value, 1, 0))
        && At(p, at + 3, Ret(KillProcess))
  }

  lemma RefusePlaced(p: seq<Insn>, at: nat, nr: Word, verdict: Verdict)
    requires Placed(p, at, Refuse(nr, verdict))
    ensures RefuseAt(p, at, nr, verdict)
  {
    var b := Refuse(nr, verdict);
    assert p[at + 0] == b[0] && p[at + 1] == b[1];
  }

  lemma DemandPlaced(p: seq<Insn>, at: nat, f: Field, value: Word)
    requires Placed(p, at, Demand(f, value))
    ensures DemandAt(p, at, f, value)
  {
    var b := Demand(f, value);
    assert p[at + 0] == b[0] && p[at + 1] == b[1] && p[at + 2] == b[2];
  }

  lemma DemandMaskedPlaced(p: seq<Insn>, at: nat, f: Field, mask: Word, value: Word)
    requires Placed(p, at, DemandMasked(f, mask, value))
    ensures DemandMaskedAt(p, at, f, mask, value)
  {
    var b := DemandMasked(f, mask, value);
    assert p[at + 0] == b[0] && p[at + 1] == b[1] && p[at + 2] == b[2] && p[at + 3] == b[3];
  }

  lemma OnePlaced(p: seq<Insn>, at: nat, insn: Insn)
    requires Placed(p, at, [insn])
    ensures At(p, at, insn)
  {
    assert p[at + 0] == [insn][0];
  }

  lemma RefuseDecides(p: seq<Insn>, at: nat, nr: Word, verdict: Verdict, d: Data, n: nat, m: nat)
    requires RefuseAt(p, at, nr, verdict)
    ensures Exec(p, at, d.nr, d) == if d.nr == nr then Returned(verdict) else Exec(p, at + 2, d.nr, d)
    ensures NrAtTests(p, at, d.nr, d, n, m) <==> (d.nr != nr ==> NrAtTests(p, at + 2, d.nr, d, n, m))
  {
    assert Exec(p, at + 1, d.nr, d) == Returned(verdict);
    assert NrAtTests(p, at + 1, d.nr, d, n, m);
  }

  lemma DemandDecides(p: seq<Insn>, at: nat, f: Field, value: Word, acc: Word, d: Data, n: nat, m: nat)
    requires DemandAt(p, at, f, value)
    requires !TopLevelTest(at, n, m) && !TopLevelTest(at + 1, n, m) && !TopLevelTest(at + 2, n, m)
    ensures Exec(p, at, acc, d) == if Load(d, f) == value then Exec(p, at + 3, value, d) else Returned(KillProcess)
    ensures NrAtTests(p, at, acc, d, n, m) <==> (Load(d, f) == value ==> NrAtTests(p, at + 3, value, d, n, m))
  {
    var v := Load(d, f);
    assert Exec(p, at + 2, v, d) == Returned(KillProcess);
    assert NrAtTests(p, at + 2, v, d, n, m);
  }

  lemma DemandMaskedDecides(
      p: seq<Insn>, at: nat, f: Field, mask: Word, value: Word, acc: Word, d: Data, n: nat, m: nat)
    requires DemandMaskedAt(p, at, f, mask, value)
    requires !TopLevelTest(at, n, m) && !TopLevelTest(at + 1, n, m) && !TopLevelTest(at + 2, n, m)
        && !TopLevelTest(at + 3, n, m)
    ensures Exec(p, at, acc, d)
            == if BitAnd(Load(d, f), mask) == value then Exec(p, at + 4, value, d) else Returned(KillProcess)
    ensures NrAtTests(p, at, acc, d, n, m)
        <==> (BitAnd(Load(d, f), mask) == value ==> NrAtTests(p, at + 4, value, d, n, m))
  {
    var v := BitAnd(Load(d, f), mask);
    assert Exec(p, at + 3, v, d) == Returned(KillProcess);
    assert NrAtTests(p, at + 3, v, d, n, m);
    assert Exec(p, at + 2, v, d) == if v == value then Exec(p, at + 4, value, d) else Returned(KillProcess);
    assert NrAtTests(p, at + 2, v, d, n, m) == (v == value ==> NrAtTests(p, at + 4, value, d, n, m));
    assert Exec(p, at + 1, Load(d, f), d) == Exec(p, at + 2, v, d);
    assert NrAtTests(p, at + 1, Load(d, f), d, n, m) == NrAtTests(p, at + 2, v, d, n, m);
  }

  /** From entry `i` on, a list block allows exactly what the rest of the list contains. */
  lemma {:induction false} ListBlockDecides(p: seq<Insn>, at: nat, list: seq<Word>, i: nat, acc: Word, d: Data)
    requires Placed(p, at, ListBlock(list)) && i <= |list| <= 255
    ensures Exec(p, at + i, acc, d) == Returned(if acc in list[i..] then Allow else KillProcess)
    decreases |list| - i
  {
    var b := ListBlock(list);
    var l := |list|;
    assert p[at + i] == b[i];
    if i == l {
      assert list[i..] == [];
    } else {
      assert p[at + (l + 1)] == b[l + 1] == Ret(Allow);
      assert Uint8(l - i) == l - i;
      assert b[i] == ListTests(list)[i] == Jeq(list[i], l - i, 0);
      assert list[i..] == [list[i]] + list[i + 1..];
      if acc == list[i] {
        assert at + i + 1 + (l - i) == at + (l + 1);
        assert Exec(p, at + (l + 1), acc, d) == Returned(Allow);
      } else {
        ListBlockDecides(p, at, list, i + 1, acc, d);
      }
    }
  }

  lemma {:induction false} ListBlockKeepsNr(
      p: seq<Insn>, at: nat, list: seq<Word>, i: nat, acc: Word, d: Data, n: nat, m: nat)
    requires Placed(p, at, ListBlock(list)) && i <= |list| <= 255
    requires forall k :: at <= k < at + |list| + 2 && TopLevelTest(k, n, m) ==> acc == d.nr
    ensures NrAtTests(p, at + i, acc, d, n, m)
    decreases |list| - i
  {
    var b := ListBlock(list);
    var l := |list|;
    assert p[at + i] == b[i];
    assert p[at + (l + 1)] == b[l + 1] == Ret(Allow);
    if i < l {
      assert Uint8(l - i) == l - i;
      assert b[i] == ListTests(list)[i] == Jeq(list[i], l - i, 0);
      assert at + i + 1 + (l - i) == at + (l + 1);
      assert NrAtTests(p, at + (l + 1), acc, d, n, m);
      if acc != list[i] { ListBlockKeepsNr(p, at, list, i + 1, acc, d, n, m); }
    }
  }

  // ---------------------------------------------------------------------------
  // The program
  // ---------------------------------------------------------------------------

  predicate RefusalsLaidOut(p: seq<Insn>, abi: Abi) {
    && DemandAt(p, 0, Arch, abi.nativeArch) && At(p, 3, LdAbs(Nr))
    && RefuseAt(p, 4, abi.ioUringSetup, ErrnoEperm)
    && RefuseAt(p, 6, abi.ioUringEnter, ErrnoEperm)
    && RefuseAt(p, 8, abi.ioUringRegister, ErrnoEperm)
    && RefuseAt(p, 10, abi.clone3, ErrnoEnosys)
  }

  predicate CloneLaidOut(p: seq<Insn>, abi: Abi) {
    && At(p, 12, Jeq(abi.clone, 0, 9))
    && DemandMaskedAt(p, 13, Arg0, BitNot(abi.threadFlags), 0)
    && DemandMaskedAt(p, 17, Arg0, abi.vmAndThread, abi.vmAndThread)
    && At(p, 21, Ret(Allow))
  }

  predicate ExecveatLaidOut(p: seq<Insn>, abi: Abi, fd: Word) {
    && At(p, 22, Jeq(abi.execveat, 0, 7))
    && DemandAt(p, 23, Arg0, fd) && DemandAt(p, 26, Arg4, abi.atEmptyPath)
    && At(p, 29, Ret(Allow))
  }

  /** Where each block of the program sits. */
  predicate LaidOut(p: seq<Insn>, abi: Abi, fd: Word, prctls: seq<Word>, allowed: seq<Word>) {
    && RefusalsLaidOut(p, abi) && CloneLaidOut(p, abi) && ExecveatLaidOut(p, abi, fd)
    && At(p, 30, Jeq(abi.prctl, 0, |prctls| + 3)) && At(p, 31, LdAbs(Arg0))
    && Placed(p, 32, ListBlock(prctls)) && Placed(p, 34 + |prctls|, ListBlock(allowed))
  }

  lemma IoUringBlockIs(u: seq<Word>)
    requires |u| == 3
    ensures IoUringBlock(u) == Refuse(u[0], ErrnoEperm) + Refuse(u[1], ErrnoEperm) + Refuse(u[2], ErrnoEperm)
  {
    assert u[..2][..1] == u[..1] && u[..1][..0] == [];
    assert IoUringBlock(u[..1]) == Refuse(u[0], ErrnoEperm);
    assert IoUringBlock(u[..2]) == IoUringBlock(u[..1]) + Refuse(u[1], ErrnoEperm);
  }

  lemma RefusalsLayout(p: seq<Insn>, abi: Abi)
    requires Placed(p, 0, Refusals(abi))
    ensures RefusalsLaidOut(p, abi)
  {
    var u := IoUringNumbers(abi);
    IoUringBlockIs(u);
    PlacedHead(p, 0, ArchGuard(abi) + IoUringBlock(u), Refuse(abi.clone3, ErrnoEnosys));
    PlacedHead(p, 0, ArchGuard(abi), IoUringBlock(u));
    PlacedHead(p, 0, Demand(Arch, abi.nativeArch), [LdAbs(Nr)]);
    PlacedHead(p, 4, Refuse(u[0], ErrnoEperm) + Refuse(u[1], ErrnoEperm), Refuse(u[2], ErrnoEperm));
    PlacedHead(p, 4, Refuse(u[0], ErrnoEperm), Refuse(u[1], ErrnoEperm));
    DemandPlaced(p, 0, Arch, abi.nativeArch);
    OnePlaced(p, 3, LdAbs(Nr));
    RefusePlaced(p, 4, u[0], ErrnoEperm);
    RefusePlaced(p, 6, u[1], ErrnoEperm);
    RefusePlaced(p, 8, u[2], ErrnoEperm);
    RefusePlaced(p, 10, abi.clone3, ErrnoEnosys);
  }

  lemma CloneLayout(p: seq<Insn>, abi: Abi)
    requires Placed(p, 12, CloneBlock(abi))
    ensures CloneLaidOut(p, abi)
  {
    var first := DemandMasked(Arg0, BitNot(abi.threadFlags), 0);
    var second := DemandMasked(Arg0, abi.vmAndThread, abi.vmAndThread);
    var head := [Jeq(abi.clone, 0, Uint8(9))];
    PlacedHead(p, 12, head + first + second, [Ret(Allow)]);
    PlacedHead(p, 12, head + first, second);
    PlacedHead(p, 12, head, first);
    OnePlaced(p, 12, head[0]);
    DemandMaskedPlaced(p, 13, Arg0, BitNot(abi.threadFlags), 0);
    DemandMaskedPlaced(p, 17, Arg0, abi.vmAndThread, abi.vmAndThread);
    OnePlaced(p, 21, Ret(Allow));
  }

  lemma ExecveatLayout(p: seq<Insn>, abi: Abi, fd: Word)
    requires Placed(p, 22, ExecveatBlock(abi, fd))
    ensures ExecveatLaidOut(p, abi, fd)
  {
    var first, second := Demand(Arg0, fd), Demand(Arg4, abi.atEmptyPath);
    var head := [Jeq(abi.execveat, 0, Uint8(7))];
    PlacedHead(p, 22, head + first + second, [Ret(Allow)]);
    PlacedHead(p, 22, head + first, second);
    PlacedHead(p, 22, head, first);
    OnePlaced(p, 22, head[0]);
    DemandPlaced(p, 23, Arg0, fd);
    DemandPlaced(p, 26, Arg4, abi.atEmptyPath);
    OnePlaced(p, 29, Ret(Allow));
  }

  lemma PrctlLayout(p: seq<Insn>, abi: Abi, prctls: seq<Word>)
    requires Placed(p, 30, PrctlBlock(abi, prctls)) && |prctls| <= 220
    ensures At(p, 30, Jeq(abi.prctl, 0, |prctls| + 3)) && At(p, 31, LdAbs(Arg0)) && Placed(p, 32, ListBlock(prctls))
  {
    var b := PrctlBlock(abi, prctls);
    assert p[30 + 0] == b[0] && p[30 + 1] == b[1];
    PlacedHead(p, 30, [Jeq(abi.prctl, 0, Uint8(1 + |prctls| + 2)), LdAbs(Arg0)], ListBlock(prctls));
  }

  lemma PrologueLength(abi: Abi, fd: Word)
    ensures |Refusals(abi)| == 12 && |CloneBlock(abi)| == 10 && |Prologue(abi, fd)| == 30
  {
    IoUringBlockIs(IoUringNumbers(abi));
  }

  lemma PrologueLayout(p: seq<Insn>, abi: Abi, fd: Word)
    requires Placed(p, 0, Prologue(abi, fd))
    ensures RefusalsLaidOut(p, abi) && CloneLaidOut(p, abi) && ExecveatLaidOut(p, abi, fd)
  {
    PrologueLength(abi, fd);
    PlacedHead(p, 0, Refusals(abi) + CloneBlock(abi), ExecveatBlock(abi, fd));
    PlacedHead(p, 0, Refusals(abi), CloneBlock(abi));
    RefusalsLayout(p, abi);
    CloneLayout(p, abi);
    ExecveatLayout(p, abi, fd);
  }

  lemma BlocksPlaced(p: seq<Insn>, abi: Abi, fd: Word, prctls: seq<Word>, allowed: seq<Word>)
    requires p == Program(abi, fd, prctls, allowed)
    ensures Placed(p, 0, Prologue(abi, fd)) && Placed(p, 30, PrctlBlock(abi, prctls))
    ensures Placed(p, 34 + |prctls|, ListBlock(allowed))
  {
    PrologueLength(abi, fd);
    PlacedHead(p, 0, Prologue(abi, fd) + PrctlBlock(abi, prctls), ListBlock(allowed));
    PlacedHead(p, 0, Prologue(abi, fd), PrctlBlock(abi, prctls));
  }

  lemma Layout(abi: Abi, fd: Word, prctls: seq<Word>, allowed: seq<Word>)
    requires |prctls| <= 220
    ensures LaidOut(Program(abi, fd, prctls, allowed), abi, fd, prctls, allowed)
  {
    var p := Program(abi, fd, prctls, allowed);
    BlocksPlaced(p, abi, fd, prctls, allowed);
    PrologueLayout(p, abi, fd);
    PrctlLayout(p, abi, prctls);
  }

  /** Positions 0 to 11 refuse foreign architectures, io_uring and clone3. */
  lemma RefusalsDecide(p: seq<Insn>, abi: Abi, acc: Word, d: Data, n: nat, m: nat)
    requires RefusalsLaidOut(p, abi)
    ensures Exec(p, 0, acc, d)
            == if d.arch != abi.nativeArch then Returned(KillProcess)
               else if d.nr == abi.ioUringSetup || d.nr == abi.ioUringEnter || d.nr == abi.ioUringRegister
                  then Returned(ErrnoEperm)
               else if d.nr == abi.clone3 then Returned(ErrnoEnosys)
               else Exec(p, 12, d.nr, d)
    ensures NrAtTests(p, 12, d.nr, d, n, m) ==> NrAtTests(p, 0, acc, d, n, m)
  {
    DemandDecides(p, 0, Arch, abi.nativeArch, acc, d, n, m);
    assert Exec(p, 3, d.arch, d) == Exec(p, 4, d.nr, d);
    assert NrAtTests(p, 3, d.arch, d, n, m) == NrAtTests(p, 4, d.nr, d, n, m);
    RefuseDecides(p, 4, abi.ioUringSetup, ErrnoEperm, d, n, m);
    RefuseDecides(p, 6, abi.ioUringEnter, ErrnoEperm, d, n, m);
    RefuseDecides(p, 8, abi.ioUringRegister, ErrnoEperm, d, n, m);
    RefuseDecides(p, 10, abi.clone3, ErrnoEnosys, d, n, m);
  }

  lemma CloneBlockDecides(p: seq<Insn>, abi: Abi, d: Data, n: nat, m: nat)
    requires CloneLaidOut(p, abi)
    ensures Exec(p, 12, d.nr, d) == if d.nr != abi.clone then Exec(p, 22, d.nr, d)
                                    else Returned(if ThreadClone(abi, d.arg0) then Allow else KillProcess)
    ensures NrAtTests(p, 22, d.nr, d, n, m) ==> NrAtTests(p, 12, d.nr, d, n, m)
  {
    DemandMaskedDecides(p, 13, Arg0, BitNot(abi.threadFlags), 0, d.nr, d, n, m);
    DemandMaskedDecides(p, 17, Arg0, abi.vmAndThread, abi.vmAndThread, 0, d, n, m);
    assert Exec(p, 21, abi.vmAndThread, d) == Returned(Allow) && NrAtTests(p, 21, abi.vmAndThread, d, n, m);
  }

  lemma ExecveatBlockDecides(p: seq<Insn>, abi: Abi, fd: Word, d: Data, n: nat, m: nat)
    requires ExecveatLaidOut(p, abi, fd)
    ensures Exec(p, 22, d.nr, d) == if d.nr != abi.execveat then Exec(p, 30, d.nr, d)
                                    else Returned(
                                      if d.arg0 == fd && d.arg4 == abi.atEmptyPath then Allow else KillProcess)
    ensures NrAtTests(p, 30, d.nr, d, n, m) ==> NrAtTests(p, 22, d.nr, d, n, m)
  {
    DemandDecides(p, 23, Arg0, fd, d.nr, d, n, m);
    DemandDecides(p, 26, Arg4, abi.atEmptyPath, fd, d, n, m);
    assert Exec(p, 29, abi.atEmptyPath, d) == Returned(Allow) && NrAtTests(p, 29, abi.atEmptyPath, d, n, m);
  }

  lemma PrctlListDecides(p: seq<Insn>, prctls: seq<Word>, d: Data, m: nat)
    requires |prctls| + m <= 220 && At(p, 31, LdAbs(Arg0)) && Placed(p, 32, ListBlock(prctls))
    ensures Exec(p, 31, d.nr, d) == Returned(if d.arg0 in prctls then Allow else KillProcess)
    ensures NrAtTests(p, 31, d.nr, d, |prctls|, m)
  {
    ListBlockDecides(p, 32, prctls, 0, d.arg0, d);
    ListBlockKeepsNr(p, 32, prctls, 0, d.arg0, d, |prctls|, m);
    assert prctls[0..] == prctls;
    assert Exec(p, 31, d.nr, d) == Exec(p, 32, d.arg0, d);
  }

  lemma AllowlistDecides(p: seq<Insn>, n: nat, allowed: seq<Word>, d: Data)
    requires n + |allowed| <= 220 && Placed(p, 34 + n, ListBlock(allowed))
    ensures Exec(p, 34 + n, d.nr, d) == Returned(if d.nr in allowed then Allow else KillProcess)
    ensures NrAtTests(p, 34 + n, d.nr, d, n, |allowed|)
  {
    ListBlockDecides(p, 34 + n, allowed, 0, d.nr, d);
    ListBlockKeepsNr(p, 34 + n, allowed, 0, d.nr, d, n, |allowed|);
    assert allowed[0..] == allowed;
  }

  /** From position 30: the listed prctl operations, then the allowlist, then the kill. */
  lemma ListsDecide(p: seq<Insn>, abi: Abi, prctls: seq<Word>, allowed: seq<Word>, d: Data)
    requires |prctls| + |allowed| <= 220
    requires At(p, 30, Jeq(abi.prctl, 0, |prctls| + 3)) && At(p, 31, LdAbs(Arg0))
    requires Placed(p, 32, ListBlock(prctls)) && Placed(p, 34 + |prctls|, ListBlock(allowed))
    ensures Exec(p, 30, d.nr, d)
            == Returned(if if d.nr == abi.prctl then d.arg0 in prctls else d.nr in allowed then Allow else KillProcess)
    ensures NrAtTests(p, 30, d.nr, d, |prctls|, |allowed|)
  {
    PrctlListDecides(p, prctls, d, |allowed|);
    AllowlistDecides(p, |prctls|, allowed, d);
    assert 30 + 1 + (|prctls| + 3) == 34 + |prctls|;
  }

  /**
   The emitted program returns exactly the declared verdict, never leaves its
   length, and reaches every top-level test with the system call number loaded.
   */
  lemma ProgramDecidesPolicy(abi: Abi, fd: Word, prctls: seq<Word>, allowed: seq<Word>, acc: Word, d: Data)
    requires |prctls| + |allowed| <= 220
    ensures Exec(Program(abi, fd, prctls, allowed), 0, acc, d) == Returned(Policy(abi, fd, prctls, allowed, d))
    ensures NrAtTests(Program(abi, fd, prctls, allowed), 0, acc, d, |prctls|, |allowed|)
  {
    Layout(abi, fd, prctls, allowed);
    LaidOutDecides(Program(abi, fd, prctls, allowed), abi, fd, prctls, allowed, acc, d);
  }

  /** The comparisons of a loaded argument or of the architecture. */
  predicate FieldTest(pc: nat, prctls: nat) { pc in {1, 15, 19, 24, 27} || 32 <= pc < 32 + prctls }

  /** The call number a position is there to recognise. */
  function TestedNumber(abi: Abi, pc: nat, prctls: nat, allowed: seq<Word>): Word
    requires TopLevelTest(pc, prctls, |allowed|)
  {
    if pc >= 34 + prctls then allowed[pc - 34 - prctls]
    else if pc == 4 then abi.ioUringSetup
    else if pc == 6 then abi.ioUringEnter
    else if pc == 8 then abi.ioUringRegister
    else if pc == 10 then abi.clone3
    else if pc == 12 then abi.clone
    else if pc == 22 then abi.execveat
    else abi.prctl
  }

  /** The top-level tests are exactly the comparisons with a call number; every other comparison is of a field. */
  lemma TopLevelTestsExactly(abi: Abi, fd: Word, prctls: seq<Word>, allowed: seq<Word>, pc: nat)
    requires |prctls| + |allowed| <= 220 && pc < |Program(abi, fd, prctls, allowed)|
    ensures var p, n := Program(abi, fd, prctls, allowed), |prctls|;
            && |p| == 36 + n + |allowed|
            && (p[pc].Jeq? <==> TopLevelTest(pc, n, |allowed|) || FieldTest(pc, n))
            && !(TopLevelTest(pc, n, |allowed|) && FieldTest(pc, n))
            && (TopLevelTest(pc, n, |allowed|) ==> p[pc].Jeq? && p[pc].k == TestedNumber(abi, pc, n, allowed))
  {
    var p, n, m := Program(abi, fd, prctls, allowed), |prctls|, |allowed|;
    Layout(abi, fd, prctls, allowed);
    PrologueLength(abi, fd);
    if 32 <= pc < 34 + n {
      assert p[32 + (pc - 32)] == ListBlock(prctls)[pc - 32];
    } else if pc >= 34 + n {
      assert p[34 + n + (pc - 34 - n)] == ListBlock(allowed)[pc - 34 - n];
    } else {
      FixedTests(p, abi, fd, prctls, allowed, pc);
    }
  }

  lemma FixedTests(p: seq<Insn>, abi: Abi, fd: Word, prctls: seq<Word>, allowed: seq<Word>, pc: nat)
    requires LaidOut(p, abi, fd, prctls, allowed) && pc < 32
    ensures pc < |p| && (p[pc].Jeq? <==> pc in {1, 4, 6, 8, 10, 12, 15, 19, 22, 24, 27, 30})
    ensures p[4].k == abi.ioUringSetup && p[6].k == abi.ioUringEnter && p[8].k == abi.ioUringRegister
    ensures p[10].k == abi.clone3 && p[12].k == abi.clone && p[22].k == abi.execveat && p[30].k == abi.prctl
  {
  }

  /** The slots suffice for lists of up to 220 entries and no more, and a jump field holds the low eight bits. */
  lemma SlotsSufficeExactly(prctls: nat, allowed: nat)
    ensures 36 + prctls + allowed <= FILTER_SLOTS <==> prctls + allowed <= 220
    ensures prctls < 256 ==> Uint8(prctls) == prctls && Uint8(prctls + 256) == prctls
  {
  }

  lemma LaidOutDecides(p: seq<Insn>, abi: Abi, fd: Word, prctls: seq<Word>, allowed: seq<Word>, acc: Word, d: Data)
    requires |prctls| + |allowed| <= 220 && LaidOut(p, abi, fd, prctls, allowed)
    ensures Exec(p, 0, acc, d) == Returned(Policy(abi, fd, prctls, allowed, d))
    ensures NrAtTests(p, 0, acc, d, |prctls|, |allowed|)
  {
    var n, m := |prctls|, |allowed|;
    RefusalsDecide(p, abi, acc, d, n, m);
    CloneBlockDecides(p, abi, d, n, m);
    ExecveatBlockDecides(p, abi, fd, d, n, m);
    ListsDecide(p, abi, prctls, allowed, d);
  }

  // ---------------------------------------------------------------------------
  // What the masks mean, bit by bit
  // ---------------------------------------------------------------------------

  lemma {:induction false} AndBit(a: Word, b: Word, i: nat)
    ensures BitAt(BitAnd(a, b), i) <==> BitAt(a, i) && BitAt(b, i)
    decreases i
  {
    if a == 0 || b == 0 {
      ZeroHasNoBit(i);
    } else {
      var low := if a % 2 == 1 && b % 2 == 1 then 1 else 0;
      var r := BitAnd(a, b);
      assert r == low + 2 * BitAnd(a / 2, b / 2);
      assert r % 2 == low && r / 2 == BitAnd(a / 2, b / 2);
      if i > 0 { AndBit(a / 2, b / 2, i - 1); }
    }
  }

  lemma {:induction false} ComplementBit(a: nat, width: nat, i: nat)
    requires a < Pow2(width) && i < width
    ensures BitAt(Pow2(width) - 1 - a, i) <==> !BitAt(a, i)
  {
    if i > 0 {
      assert (Pow2(width) - 1 - a) / 2 == Pow2(width - 1) - 1 - a / 2;
      ComplementBit(a / 2, width - 1, i - 1);
    }
  }

  /** Every bit set in `a` is set in `b`. */
  ghost predicate BitsWithin(a: Word, b: Word) {
    forall i :: 0 <= i < 32 && BitAt(a, i) ==> BitAt(b, i)
  }

  lemma NothingOutside(a: Word, b: Word)
    ensures BitAnd(a, BitNot(b)) == 0 <==> BitsWithin(a, b)
  {
    WordWidth();
    var outside := BitAnd(a, BitNot(b));
    forall i | 0 <= i < 32
      ensures BitAt(outside, i) <==> BitAt(a, i) && !BitAt(b, i)
    {
      AndBit(a, BitNot(b), i);
      ComplementBit(b, 32, i);
    }
    forall i: nat ensures !BitAt(0, i) {
      ZeroHasNoBit(i);
    }
    if BitsWithin(a, b) { BitsDetermine(outside, 0, 32); }
  }

  lemma EverythingInside(a: Word, b: Word)
    ensures BitAnd(a, b) == b <==> BitsWithin(b, a)
  {
    WordWidth();
    var both := BitAnd(a, b);
    forall i | 0 <= i < 32
      ensures BitAt(both, i) <==> BitAt(a, i) && BitAt(b, i)
    {
      AndBit(a, b, i);
    }
    if BitsWithin(b, a) { BitsDetermine(both, b, 32); }
  }

  /** The two masked tests admit exactly the flag words between the two masks. */
  lemma ThreadCloneMeans(abi: Abi, flags: Word)
    ensures ThreadClone(abi, flags) <==> BitsWithin(flags, abi.threadFlags) && BitsWithin(abi.vmAndThread, flags)
  {
    NothingOutside(flags, abi.threadFlags);
    EverythingInside(flags, abi.vmAndThread);
  }
}
