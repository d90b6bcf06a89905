/**
 The closure interpreter.

 A registry record carries a serialized expression over twelve predicates; the
 report also lists every orphan it finds.  The two accounts of "closed" are
 computed separately and must agree.
 */
module Closure {
  import opened Options
  import opened Search

  datatype Result<T> = Ok(value: T) | Err(error: Error)

  datatype Error = InvalidNode | UnknownNode

  datatype Predicate =
    | TerminalState | ChildrenClosed | LeaseAndFence | SideEffectsKnown | PointerAndEpoch | BindingsExact
    | QueueOutboxInboxClosed | RuntimeProcessClosed | ArtifactsFilesystemClosed | CleanupComplete
    | AuditEvidenceValid | ManualReviewEmpty

  const KNOWN_PREDICATES: seq<Predicate> :=
    [TerminalState, ChildrenClosed, LeaseAndFence, SideEffectsKnown, PointerAndEpoch, BindingsExact,
     QueueOutboxInboxClosed, RuntimeProcessClosed, ArtifactsFilesystemClosed, CleanupComplete,
     AuditEvidenceValid, ManualReviewEmpty]

  function Name(p: Predicate): string {
    match p
    case TerminalState => "terminal_state"
    case ChildrenClosed => "children_closed"
    case LeaseAndFence => "lease_and_fence"
    case SideEffectsKnown => "side_effects_known"
    case PointerAndEpoch => "pointer_and_epoch"
    case BindingsExact => "bindings_exact"
    case QueueOutboxInboxClosed => "queue_outbox_inbox_closed"
    case RuntimeProcessClosed => "runtime_process_closed"
    case ArtifactsFilesystemClosed => "artifacts_filesystem_closed"
    case CleanupComplete => "cleanup_complete"
    case AuditEvidenceValid => "audit_evidence_valid"
    case ManualReviewEmpty => "manual_review_empty"
  }

  /** Membership in the set of known names. */
  function Known(name: string): Option<Predicate> {
    FirstNamed(name, KNOWN_PREDICATES)
  }

  function FirstNamed(name: string, among: seq<Predicate>): (r: Option<Predicate>)
    ensures r.Some? ==> Name(r.value) == name
    ensures r.None? ==> forall p :: p in among ==> Name(p) != name
  {
    if among == [] then None
    else if Name(among[0]) == name then Some(among[0])
    else FirstNamed(name, among[1..])
  }

  // ---------------------------------------------------------------------------
  // Expressions
  // ---------------------------------------------------------------------------

  /** A parsed JSON value; the keys of an object are distinct. */
  datatype Json = Null | Bool(b: bool) | Number(n: int) | Str(s: string) | Arr(items: seq<Json>)
      | Obj(fields: seq<Field>)

  datatype Field = Field(key: string, value: Json)

  datatype Ast = And(args: seq<Ast>) | Or(args: seq<Ast>) | Not(arg: Ast) | Pred(p: Predicate) | Literal(b: bool)

  /** The index of a key, or the number of keys. */
  function KeyIndex(fields: seq<Field>, key: string): nat {
    FirstIndex(fields, (field: Field) => field.key == key)
  }

  predicate Has(j: Json, key: string) {
    j.Obj? && KeyIndex(j.fields, key) < |j.fields|
  }

  function Get(j: Json, key: string): (value: Json)
    requires Has(j, key)
    ensures value < j
  {
    j.fields[KeyIndex(j.fields, key)].value
  }

  predicate HasString(j: Json, key: string, text: string) {
    Has(j, key) && Get(j, key) == Str(text)
  }

  /** The tests are tried in this order; AND and OR tolerate further keys. */
  function Validate(j: Json): Result<Ast>
    decreases j, 0
  {
    if !j.Obj? then Err(InvalidNode)
    else if Has(j, "predicate") && Get(j, "predicate").Str? && Known(Get(j, "predicate").s).Some? && |j.fields| == 1
    then Ok(Pred(Known(Get(j, "predicate").s).value))
    else if Has(j, "literal") && Get(j, "literal").Bool? && |j.fields| == 1 then Ok(Literal(Get(j, "literal").b))
    else if (HasString(j, "op", "AND") || HasString(j, "op", "OR")) && Has(j, "args") && Get(j, "args").Arr?
            && Get(j, "args").items != []
    then
      var args := ValidateAll(Get(j, "args"), |Get(j, "args").items|);
      if args.Err? then Err(args.error)
      else if HasString(j, "op", "AND") then Ok(And(args.value))
      else Ok(Or(args.value))
    else if HasString(j, "op", "NOT") && Has(j, "arg") && |j.fields| == 2 then
      var arg := Validate(Get(j, "arg"));
      if arg.Err? then Err(arg.error) else Ok(Not(arg.value))
    else Err(UnknownNode)
  }

  /** `args.map(validate)` over the first `n` items; the first error is thrown. */
  function ValidateAll(a: Json, n: nat): (r: Result<seq<Ast>>)
    requires a.Arr? && n <= |a.items|
    ensures r.Ok? ==> |r.value| == n && forall i :: 0 <= i < n ==> Validate(a.items[i]) == Ok(r.value[i])
    ensures r.Err? ==> exists i :: 0 <= i < n && Validate(a.items[i]) == Err(r.error)
    decreases a, n + 1
  {
    if n == 0 then Ok([])
    else
      var front := ValidateAll(a, n - 1);
      if front.Err? then front
      else
        var last := Validate(a.items[n - 1]);
        if last.Err? then Err(last.error) else Ok(front.value + [last.value])
  }

  predicate Evaluate(ast: Ast, values: Predicate -> bool) {
    match ast
    case Literal(b) => b
    case Pred(p) => values(p)
    case Not(arg) => !Evaluate(arg, values)
    case And(args) => forall i :: 0 <= i < |args| ==> Evaluate(args[i], values)
    case Or(args) => exists i :: 0 <= i < |args| && Evaluate(args[i], values)
  }

  predicate NotFree(ast: Ast) {
    match ast
    case Not(_) => false
    case And(args) => forall i :: 0 <= i < |args| ==> NotFree(args[i])
    case Or(args) => forall i :: 0 <= i < |args| ==> NotFree(args[i])
    case _ => true
  }

  /** Making more predicates true never turns a NOT-free expression false. */
  lemma {:induction false} NotFreeIsMonotone(ast: Ast, values: Predicate -> bool, more: Predicate -> bool)
    requires NotFree(ast) && Evaluate(ast, values) && forall p :: values(p) ==> more(p)
    ensures Evaluate(ast, more)
  {
    match ast
    case And(args) =>
      forall i | 0 <= i < |args| ensures Evaluate(args[i], more) { NotFreeIsMonotone(args[i], values, more); }
    case Or(args) =>
      var i :| 0 <= i < |args| && Evaluate(args[i], values);
      NotFreeIsMonotone(args[i], values, more);
    case _ =>
  }

  // ---------------------------------------------------------------------------
  // Printing a list of predicates and reading it back
  // ---------------------------------------------------------------------------

  function PrintPredicate(p: Predicate): Json { Obj([Field("predicate", Str(Name(p)))]) }

  function PrintAll(names: seq<Predicate>): (items: seq<Json>)
    ensures |items| == |names| && forall i :: 0 <= i < |names| ==> items[i] == PrintPredicate(names[i])
  {
    if names == [] then [] else PrintAll(names[..|names| - 1]) + [PrintPredicate(names[|names| - 1])]
  }

  /** `closureAstForPredicates`. */
  function ClosureAstForPredicates(names: seq<Predicate>): Json {
    Obj([Field("op", Str("AND")), Field("args", Arr(PrintAll(names)))])
  }

  function Conjunction(names: seq<Predicate>): (ast: Ast)
    ensures ast.And? && |ast.args| == |names| && forall i :: 0 <= i < |names| ==> ast.args[i] == Pred(names[i])
  {
    And(seq(|names|, i requires 0 <= i < |names| => Pred(names[i])))
  }

  /** Length and first letter already tell the names apart. */
  function Shape(p: Predicate): (nat, char) {
    match p
    case TerminalState => (14, 't')
    case ChildrenClosed => (15, 'c')
    case LeaseAndFence => (15, 'l')
    case SideEffectsKnown => (18, 's')
    case PointerAndEpoch => (17, 'p')
    case BindingsExact => (14, 'b')
    case QueueOutboxInboxClosed => (25, 'q')
    case RuntimeProcessClosed => (22, 'r')
    case ArtifactsFilesystemClosed => (27, 'a')
    case CleanupComplete => (16, 'c')
    case AuditEvidenceValid => (20, 'a')
    case ManualReviewEmpty => (19, 'm')
  }

  lemma NameHasShape(p: Predicate)
    ensures |Name(p)| == Shape(p).0 && Name(p)[0] == Shape(p).1
  {
  }

  lemma ShapesDiffer(p: Predicate, q: Predicate)
    ensures Shape(p) == Shape(q) ==> p == q
  {
  }

  lemma AllAreListed(p: Predicate)
    ensures p in KNOWN_PREDICATES
  {
    var k := KNOWN_PREDICATES;
    assert k[0] in k && k[1] in k && k[2] in k && k[3] in k && k[4] in k && k[5] in k;
    assert k[6] in k && k[7] in k && k[8] in k && k[9] in k && k[10] in k && k[11] in k;
  }

  lemma NamesAreKnown(p: Predicate)
    ensures Known(Name(p)) == Some(p)
  {
    AllAreListed(p);
    var found := FirstNamed(Name(p), KNOWN_PREDICATES);
    NameHasShape(p);
    if found.Some? {
      NameHasShape(found.value);
      ShapesDiffer(p, found.value);
    }
  }

  lemma PredicateReadBack(p: Predicate)
    ensures Validate(PrintPredicate(p)) == Ok(Pred(p))
  {
    NamesAreKnown(p);
    var j := PrintPredicate(p);
    assert KeyIndex(j.fields, "predicate") == 0;
  }

  /** The printed form of a list of predicates reads back as their conjunction exactly when the list is not empty. */
  lemma PrintedListReadsBack(names: seq<Predicate>)
    ensures Validate(ClosureAstForPredicates(names)) == Ok(Conjunction(names)) <==> names != []
    ensures names == [] ==> Validate(ClosureAstForPredicates(names)) == Err(UnknownNode)
  {
    var j := ClosureAstForPredicates(names);
    PrintedKeys(names);
    if names != [] {
      var a := Get(j, "args");
      ItemsReadBack(a, names);
      assert ValidateAll(a, |names|).value == Conjunction(names).args;
    }
  }

  lemma PrintedKeys(names: seq<Predicate>)
    ensures var j := ClosureAstForPredicates(names);
            && !Has(j, "predicate") && !Has(j, "literal") && !HasString(j, "op", "OR") && !HasString(j, "op", "NOT")
            && HasString(j, "op", "AND") && Has(j, "args") && Get(j, "args") == Arr(PrintAll(names))
  {
    var f := ClosureAstForPredicates(names).fields;
    assert f[1..] == [f[1]] && f[1..][1..] == [];
    assert |"op"| == 2 && |"args"| == 4 && |"AND"| == 3 && |"OR"| == 2 && |"predicate"| == 9 && |"literal"| == 7;
    assert "AND"[0] != "NOT"[0];
    assert KeyIndex(f, "op") == 0 && KeyIndex(f, "args") == 1 && KeyIndex(f, "predicate") == 2
        && KeyIndex(f, "literal") == 2;
  }

  lemma ItemsReadBack(a: Json, names: seq<Predicate>)
    requires a == Arr(PrintAll(names))
    ensures ValidateAll(a, |names|).Ok? && |ValidateAll(a, |names|).value| == |names|
    ensures forall i :: 0 <= i < |names| ==> ValidateAll(a, |names|).value[i] == Pred(names[i])
  {
    forall i | 0 <= i < |names| ensures Validate(a.items[i]) == Ok(Pred(names[i])) { PredicateReadBack(names[i]); }
  }

  // ---------------------------------------------------------------------------
  // Reading any expression
  // ---------------------------------------------------------------------------

  /** No object has a key twice, at any depth. */
  predicate DistinctKeys(j: Json) {
    match j
    case Obj(fields) =>
      && (forall f, g :: 0 <= f < g < |fields| ==> fields[f].key != fields[g].key)
      && forall f :: 0 <= f < |fields| ==> DistinctKeys(fields[f].value)
    case Arr(items) => forall i :: 0 <= i < |items| ==> DistinctKeys(items[i])
    case _ => true
  }

  /** The object has this key with this value. */
  ghost predicate Carries(j: Json, key: string, value: Json) {
    j.Obj? && Field(key, value) in j.fields
  }

  /** The JSON form of an expression: one key for a predicate or literal, two for NOT, at least one argument else. */
  ghost predicate Reads(j: Json, ast: Ast)
    decreases ast
  {
    match ast
    case Pred(p) => j == Obj([Field("predicate", Str(Name(p)))])
    case Literal(b) => j == Obj([Field("literal", Bool(b))])
    case Not(arg) =>
      && Carries(j, "op", Str("NOT")) && |j.fields| == 2
      && exists value :: Carries(j, "arg", value) && Reads(value, arg)
    case And(args) =>
      && Carries(j, "op", Str("AND")) && args != []
      && exists items :: Carries(j, "args", Arr(items)) && |items| == |args|
                         && forall i :: 0 <= i < |args| ==> Reads(items[i], args[i])
    case Or(args) =>
      && Carries(j, "op", Str("OR")) && args != []
      && exists items :: Carries(j, "args", Arr(items)) && |items| == |args|
                         && forall i :: 0 <= i < |args| ==> Reads(items[i], args[i])
  }

  lemma FoundFieldIs(j: Json, key: string)
    requires DistinctKeys(j)
    ensures Has(j, key) ==> Carries(j, key, Get(j, key)) && DistinctKeys(Get(j, key))
    ensures forall value :: Carries(j, key, value) ==> Has(j, key) && Get(j, key) == value
  {
    if Has(j, key) { assert j.fields[KeyIndex(j.fields, key)] == Field(key, Get(j, key)); }
    forall value | Carries(j, key, value) ensures Has(j, key) && Get(j, key) == value {
      var n :| 0 <= n < |j.fields| && j.fields[n] == Field(key, value);
      assert j.fields[KeyIndex(j.fields, key)].key == key;
    }
  }

  lemma KeysDiffer()
    ensures "predicate" != "literal" && "op" != "args" && "op" != "arg" && "args" != "arg"
    ensures "AND" != "OR" && "AND" != "NOT" && "OR" != "NOT"
  {
    assert |"op"| == 2 && |"args"| == 4 && |"arg"| == 3 && |"predicate"| == 9 && |"literal"| == 7;
    assert |"AND"| == 3 && |"OR"| == 2 && |"NOT"| == 3 && "AND"[0] != "NOT"[0];
  }

  lemma OnlyFieldIs(j: Json, key: string)
    requires DistinctKeys(j) && Has(j, key) && |j.fields| == 1
    ensures j == Obj([Field(key, Get(j, key))])
  {
    FoundFieldIs(j, key);
    assert j.fields == [j.fields[0]];
  }

  lemma TwoFields(j: Json, a: string, x: Json, b: string, y: Json)
    requires Carries(j, a, x) && Carries(j, b, y) && a != b
    ensures |j.fields| >= 2
  {
    var n :| 0 <= n < |j.fields| && j.fields[n] == Field(a, x);
    var m :| 0 <= m < |j.fields| && j.fields[m] == Field(b, y);
    assert n != m;
  }

  lemma ItemIsDistinct(a: Json, i: nat)
    requires DistinctKeys(a) && a.Arr? && i < |a.items|
    ensures DistinctKeys(a.items[i])
  {
  }

  lemma LiteralIsValidated(b: bool)
    ensures Validate(Obj([Field("literal", Bool(b))])) == Ok(Literal(b))
  {
    KeysDiffer();
    var f := [Field("literal", Bool(b))];
    assert KeyIndex(f, "literal") == 0;
    assert KeyIndex(f, "predicate") == 1;
  }

  lemma NegationIsValidated(j: Json, value: Json, arg: Ast)
    requires DistinctKeys(j) && Carries(j, "op", Str("NOT")) && |j.fields| == 2 && Carries(j, "arg", value)
    requires Validate(value) == Ok(arg)
    ensures Validate(j) == Ok(Not(arg))
  {
    KeysDiffer();
    FoundFieldIs(j, "op");
    FoundFieldIs(j, "arg");
  }

  /** What reads as an expression is accepted as that expression. */
  lemma {:induction false} ReadIsValidated(j: Json, ast: Ast)
    requires DistinctKeys(j) && Reads(j, ast)
    ensures Validate(j) == Ok(ast)
    decreases ast, 2, 0
  {
    match ast
    case Pred(p) => PredicateReadBack(p);
    case Literal(b) => LiteralIsValidated(b);
    case Not(arg) =>
      var value :| Carries(j, "arg", value) && Reads(value, arg);
      FoundFieldIs(j, "arg");
      ReadIsValidated(value, arg);
      NegationIsValidated(j, value, arg);
    case And(args) =>
      var items :| Carries(j, "args", Arr(items)) && |items| == |args|
                   && forall i :: 0 <= i < |args| ==> Reads(items[i], args[i]);
      ArgumentsAreValidated(j, ast, args, items);
    case Or(args) =>
      var items :| Carries(j, "args", Arr(items)) && |items| == |args|
                   && forall i :: 0 <= i < |args| ==> Reads(items[i], args[i]);
      ArgumentsAreValidated(j, ast, args, items);
  }

  lemma {:induction false} ArgumentsAreValidated(j: Json, ast: Ast, args: seq<Ast>, items: seq<Json>)
    requires DistinctKeys(j) && args != [] && (ast == And(args) || ast == Or(args))
    requires Carries(j, "op", Str(if ast.And? then "AND" else "OR")) && Carries(j, "args", Arr(items))
    requires |items| == |args| && forall i :: 0 <= i < |args| ==> Reads(items[i], args[i])
    ensures Validate(j) == Ok(ast)
    decreases ast, 1, 0
  {
    KeysDiffer();
    FoundFieldIs(j, "op");
    FoundFieldIs(j, "args");
    TwoFields(j, "op", Str(if ast.And? then "AND" else "OR"), "args", Arr(items));
    var a := Arr(items);
    forall i | 0 <= i < |args| ensures Validate(a.items[i]) == Ok(args[i]) {
      ItemIsDistinct(a, i);
      assert args[i] < ast;
      ReadIsValidated(a.items[i], args[i]);
    }
    assert ValidateAll(a, |args|).value == args;
  }

  /** An accepted AND or OR carries its word and its arguments, each accepted in turn. */
  lemma AcceptedArguments(j: Json, ast: Ast, args: seq<Ast>)
    requires DistinctKeys(j) && Validate(j) == Ok(ast) && (ast == And(args) || ast == Or(args))
    ensures Carries(j, "op", Str(if ast.And? then "AND" else "OR")) && args != []
    ensures Has(j, "args") && Get(j, "args").Arr? && |Get(j, "args").items| == |args|
    ensures Carries(j, "args", Get(j, "args")) && DistinctKeys(Get(j, "args"))
    ensures forall i :: 0 <= i < |args| ==> Validate(Get(j, "args").items[i]) == Ok(args[i])
  {
    KeysDiffer();
    FoundFieldIs(j, "op");
    FoundFieldIs(j, "args");
  }

  lemma AcceptedNegation(j: Json, arg: Ast)
    requires DistinctKeys(j) && Validate(j) == Ok(Not(arg))
    ensures Carries(j, "op", Str("NOT")) && |j.fields| == 2
    ensures Has(j, "arg") && Carries(j, "arg", Get(j, "arg")) && DistinctKeys(Get(j, "arg"))
    ensures Validate(Get(j, "arg")) == Ok(arg)
  {
    KeysDiffer();
    FoundFieldIs(j, "op");
    FoundFieldIs(j, "arg");
  }

  /** And what is accepted reads as the expression it is accepted as. */
  lemma {:induction false} ValidatedIsRead(j: Json, ast: Ast)
    requires DistinctKeys(j) && Validate(j) == Ok(ast)
    ensures Reads(j, ast)
    decreases j
  {
    match ast
    case Pred(_) => OnlyFieldIs(j, "predicate");
    case Literal(_) => OnlyFieldIs(j, "literal");
    case Not(arg) =>
      AcceptedNegation(j, arg);
      ValidatedIsRead(Get(j, "arg"), arg);
    case And(args) =>
      AcceptedArguments(j, ast, args);
      ArgumentsAreRead(j, Get(j, "args"), args);
    case Or(args) =>
      AcceptedArguments(j, ast, args);
      ArgumentsAreRead(j, Get(j, "args"), args);
  }

  lemma {:induction false} ArgumentsAreRead(j: Json, a: Json, args: seq<Ast>)
    requires DistinctKeys(a) && a.Arr? && |a.items| == |args| && a < j
    requires forall i :: 0 <= i < |args| ==> Validate(a.items[i]) == Ok(args[i])
    ensures Arr(a.items) == a && forall i :: 0 <= i < |args| ==> Reads(a.items[i], args[i])
    decreases a
  {
    forall i | 0 <= i < |args| ensures Reads(a.items[i], args[i]) {
      ItemIsDistinct(a, i);
      ValidatedIsRead(a.items[i], args[i]);
    }
  }

  /** Anything but an object is an invalid node; an object that reads as nothing is an unknown one or has a bad part. */
  lemma NonObjectIsInvalid(j: Json)
    ensures !j.Obj? ==> Validate(j) == Err(InvalidNode)
    ensures j.Obj? && j.fields == [] ==> Validate(j) == Err(UnknownNode)
  {
  }

  /** The parser accepts exactly the JSON forms of expressions, each as its own. */
  lemma ValidateReadsExactly(j: Json, ast: Ast)
    requires DistinctKeys(j)
    ensures Validate(j) == Ok(ast) <==> Reads(j, ast)
  {
    if Validate(j) == Ok(ast) { ValidatedIsRead(j, ast); }
    if Reads(j, ast) { ReadIsValidated(j, ast); }
  }

  /** The negation pushed down to the predicates. */
  function Complement(ast: Ast): Ast {
    match ast
    case Pred(p) => Not(Pred(p))
    case Literal(b) => Literal(!b)
    case Not(arg) => arg
    case And(args) => Or(seq(|args|, i requires 0 <= i < |args| => Complement(args[i])))
    case Or(args) => And(seq(|args|, i requires 0 <= i < |args| => Complement(args[i])))
  }

  /** De Morgan: the complement has the opposite value. */
  lemma {:induction false} ComplementIsOpposite(ast: Ast, values: Predicate -> bool)
    ensures Evaluate(Complement(ast), values) <==> !Evaluate(ast, values)
  {
    match ast
    case And(args) =>
      forall i | 0 <= i < |args| ensures Evaluate(Complement(args[i]), values) <==> !Evaluate(args[i], values) {
        ComplementIsOpposite(args[i], values);
      }
      assert forall i :: 0 <= i < |args| ==> Complement(ast).args[i] == Complement(args[i]);
    case Or(args) =>
      forall i | 0 <= i < |args| ensures Evaluate(Complement(args[i]), values) <==> !Evaluate(args[i], values) {
        ComplementIsOpposite(args[i], values);
      }
      assert forall i :: 0 <= i < |args| ==> Complement(ast).args[i] == Complement(args[i]);
    case _ =>
  }

  // ---------------------------------------------------------------------------
  // Evidence
  // ---------------------------------------------------------------------------

  datatype EffectStatus = CONFIRMED_APPLIED | CONFIRMED_NOT_APPLIED | FAILED_FINAL | UNKNOWN | RECONCILING
      | MANUAL_REVIEW | OTHER_STATUS

  datatype EffectRow = EffectRow(id: nat, status: EffectStatus, compensated: bool)

  datatype Effect = Effect(id: nat, status: EffectStatus, possibleEffect: bool, manualReview: bool)

  function ReadEffect(row: EffectRow): Effect {
    Effect(row.id, row.status,
           row.status != CONFIRMED_NOT_APPLIED && row.status != FAILED_FINAL,
           || row.status == UNKNOWN || row.status == RECONCILING || row.status == MANUAL_REVIEW
           || (row.compensated && row.status == CONFIRMED_APPLIED))
  }

  datatype ArtifactState = PUBLISHED | CLEANED | FAILED | OTHER_STATE

  /** A `finalPath` or `expectedDigest` of None stands for null or the empty string. */
  datatype Artifact = Artifact(id: nat, state: ArtifactState, tempPath: nat, finalPath: Option<nat>,
      expectedDigest: Option<nat>)

  datatype Process = Process(id: nat, active: bool)

  /** What the database says about a root; counts are non-negative. */
  datatype Database = Database(
    rootExists: bool, rootState: nat,
    pendingCommands: nat, provisionalChildren: nat, pendingApprovals: nat, pendingTasks: nat,
    activeLeases: nat, staleLeases: nat, unfencedLeases: nat,
    effects: seq<Effect>,
    mixedEpoch: nat, activePointer: nat, pendingSwitches: nat,
    activeBindings: nat, staleBindings: nat, unresolvedBindings: nat,
    pendingQueue: nat, pendingOutbox: nat, inboxGaps: nat,
    contexts: nat, artifacts: seq<Artifact>,
    cleanupIncomplete: nat, liveResources: nat,
    invalidStreams: nat, missingTerminalEvent: nat,
    reviewObjects: nat, reviewConflicts: nat)

  datatype Runtime = Runtime(processes: seq<Process>, sockets: seq<Process>, cgroups: seq<Process>)

  datatype Observed = Observed(id: nat, path: nat, present: bool, digest: Option<nat>)

  /** What `lstat` and the file digest answer for a path. */
  type Probe = nat -> (bool, nat)

  function CountManual(effects: seq<Effect>): nat {
    if effects == [] then 0
    else CountManual(effects[..|effects| - 1]) + if effects[|effects| - 1].manualReview then 1 else 0
  }

  /** The part of the evidence reader that fills effects and adds them to the objects under review. */
  method ReadEffects(
      rows: seq<EffectRow>, reviewObjectsElsewhere: nat) returns (effects: seq<Effect>, reviewObjects: nat)
    ensures |effects| == |rows| && forall i :: 0 <= i < |rows| ==> effects[i] == ReadEffect(rows[i])
    ensures reviewObjects == CountManual(effects) + reviewObjectsElsewhere
  {
    effects, reviewObjects := [], 0;
    for i := 0 to |rows|
      invariant |effects| == i && forall j :: 0 <= j < i ==> effects[j] == ReadEffect(rows[j])
      invariant reviewObjects == CountManual(effects)
    {
      var effect := ReadEffect(rows[i]);
      assert (effects + [effect])[..i] == effects;
      effects := effects + [effect];
      if effect.manualReview { reviewObjects := reviewObjects + 1; }
    }
    reviewObjects := reviewObjects + reviewObjectsElsewhere;
  }

  /** The review count covers every effect under review. */
  predicate ReadByReader(db: Database) {
    db.reviewObjects >= CountManual(db.effects)
  }

  // ---------------------------------------------------------------------------
  // The filesystem inventory
  // ---------------------------------------------------------------------------

  function ObserveArtifact(a: Artifact, probe: Probe): seq<Observed> {
    if a.state == PUBLISHED then
      if a.finalPath.None? then []
      else
        var seen := probe(a.finalPath.value);
        [Observed(a.id, a.finalPath.value, seen.0, if seen.0 then Some(seen.1) else None)]
    else [Observed(a.id, a.tempPath, probe(a.tempPath).0, None)]
  }

  function ObserveAll(artifacts: seq<Artifact>, probe: Probe): seq<Observed> {
    if artifacts == [] then []
    else ObserveAll(artifacts[..|artifacts| - 1], probe) + ObserveArtifact(artifacts[|artifacts| - 1], probe)
  }

  method DefaultFilesystemInventory(artifacts: seq<Artifact>, probe: Probe) returns (observed: seq<Observed>)
    ensures observed == ObserveAll(artifacts, probe)
  {
    observed := [];
    for i := 0 to |artifacts|
      invariant observed == ObserveAll(artifacts[..i], probe)
    {
      var item := artifacts[i];
      assert artifacts[..i + 1][..i] == artifacts[..i];
      if item.state != PUBLISHED {
        observed := observed + [Observed(item.id, item.tempPath, probe(item.tempPath).0, None)];
      } else if item.finalPath.Some? {
        var seen := probe(item.finalPath.value);
        observed := observed + [Observed(item.id, item.finalPath.value, seen.0, if seen.0 then Some(seen.1) else None)];
      }
    }
    assert artifacts[..|artifacts|] == artifacts;
  }

  predicate UniqueIds(artifacts: seq<Artifact>) {
    forall i, j :: 0 <= i < j < |artifacts| ==> artifacts[i].id != artifacts[j].id
  }

  /** `find` by artifact id. */
  function FindObserved(observed: seq<Observed>, id: nat): (r: Option<Observed>)
    ensures r.Some? ==> r.value in observed && r.value.id == id
    ensures r.None? ==> forall o :: o in observed ==> o.id != id
  {
    var i := FirstIndex(observed, (o: Observed) => o.id == id);
    if i < |observed| then Some(observed[i]) else None
  }

  predicate ArtifactClosed(a: Artifact, observed: seq<Observed>) {
    var seen := FindObserved(observed, a.id);
    match a.state
    case PUBLISHED =>
      seen.Some? && seen.value.present && a.expectedDigest.Some? && seen.value.digest == a.expectedDigest
    case CLEANED => !(seen.Some? && seen.value.present)
    case FAILED => !(seen.Some? && seen.value.present)
    case OTHER_STATE => false
  }

  // ---------------------------------------------------------------------------
  // The two accounts
  // ---------------------------------------------------------------------------

  datatype Record = Record(terminalStates: seq<nat>, pointerForbidden: bool, failureCodeRegistered: bool,
      expression: Json)

  /** Whether an external effect was read back and found consistent. */
  type ReadBack = Effect -> bool

  predicate Resolved(e: Effect) {
    e.status == CONFIRMED_APPLIED || e.status == CONFIRMED_NOT_APPLIED || e.status == FAILED_FINAL
  }

  predicate NoneActive(items: seq<Process>) {
    forall i :: 0 <= i < |items| ==> !items[i].active
  }

  predicate ActivePointerForbidden(record: Record, db: Database) { record.pointerForbidden && db.activePointer > 0 }

  predicate Holds(
      p: Predicate, record: Record, db: Database, runtime: Runtime, files: seq<Observed>, readBack: ReadBack) {
    match p
    case TerminalState => db.rootExists && db.rootState in record.terminalStates
    case ChildrenClosed =>
      db.pendingCommands == 0 && db.provisionalChildren == 0 && db.pendingApprovals == 0 && db.pendingTasks == 0
    case LeaseAndFence => db.activeLeases == 0 && db.staleLeases == 0 && db.unfencedLeases == 0
    case SideEffectsKnown =>
      forall i :: 0 <= i < |db.effects|
          ==> Resolved(db.effects[i]) && (db.effects[i].possibleEffect ==> readBack(db.effects[i]))
    case PointerAndEpoch => db.mixedEpoch == 0 && db.pendingSwitches == 0 && !ActivePointerForbidden(record, db)
    case BindingsExact => db.activeBindings == 0 && db.staleBindings == 0 && db.unresolvedBindings == 0
    case QueueOutboxInboxClosed => db.pendingQueue == 0 && db.pendingOutbox == 0 && db.inboxGaps == 0
    case RuntimeProcessClosed =>
      NoneActive(runtime.processes) && NoneActive(runtime.sockets) && NoneActive(runtime.cgroups) && db.contexts == 0
    case ArtifactsFilesystemClosed => forall i :: 0 <= i < |db.artifacts| ==> ArtifactClosed(db.artifacts[i], files)
    case CleanupComplete => db.cleanupIncomplete == 0 && db.liveResources == 0
    case AuditEvidenceValid => db.invalidStreams == 0 && db.missingTerminalEvent == 0
    case ManualReviewEmpty => db.reviewObjects == 0 && db.reviewConflicts == 0
  }

  datatype OrphanKind =
    | PENDING_COMMAND | PROVISIONAL_CHILD | PENDING_APPROVAL | PENDING_TASK | ACTIVE_LEASE | STALE_LEASE
    | UNFENCED_LEASE | UNRESOLVED_SIDE_EFFECT | MIXED_POINTER_EPOCH | PENDING_POINTER_SWITCH | ACTIVE_BINDING
    | STALE_BINDING | UNRESOLVED_BINDING | PENDING_QUEUE | PENDING_OUTBOX | INBOX_SEQUENCE_GAP
    | INCOMPLETE_CLEANUP | LIVE_CLEANUP_RESOURCE | ACTIVE_POINTER | PROCESS | SOCKET | CGROUP | EXECUTION_CONTEXT
    | ARTIFACT | INVALID_AUDIT_STREAM | MISSING_TERMINAL_AUDIT_EVENT | MANUAL_REVIEW_CONFLICT
    | MANUAL_REVIEW_OBJECT | MANUAL_REVIEW_EFFECT

  datatype Orphan = Counted(kind: OrphanKind, count: nat) | Listed(kind: OrphanKind, id: nat)

  function CountedOrphan(kind: OrphanKind, count: nat): seq<Orphan> {
    if count > 0 then [Counted(kind, count)] else []
  }

  function ActiveItems(kind: OrphanKind, items: seq<Process>): seq<Orphan> {
    if items == [] then []
    else ActiveItems(kind, items[..|items| - 1])
         + if items[|items| - 1].active then [Listed(kind, items[|items| - 1].id)] else []
  }

  function StrayFiles(files: seq<Observed>, artifacts: seq<Artifact>): seq<Orphan> {
    if files == [] then []
    else
      var f := files[|files| - 1];
      StrayFiles(files[..|files| - 1], artifacts)
      + if f.present && !IsPublished(artifacts, f.id) then [Listed(ARTIFACT, f.id)] else []
  }

  predicate IsPublished(artifacts: seq<Artifact>, id: nat) {
    exists i :: 0 <= i < |artifacts| && artifacts[i].id == id && artifacts[i].state == PUBLISHED
  }

  function ReviewEffects(effects: seq<Effect>): seq<Orphan> {
    if effects == [] then []
    else
      var e := effects[|effects| - 1];
      ReviewEffects(effects[..|effects| - 1]) + if e.manualReview then [Listed(MANUAL_REVIEW_EFFECT, e.id)] else []
  }

  predicate AnyUnresolved(effects: seq<Effect>) {
    exists i :: 0 <= i < |effects| && !Resolved(effects[i])
  }

  function ChildOrphans(db: Database): seq<Orphan> {
    CountedOrphan(PENDING_COMMAND, db.pendingCommands) + CountedOrphan(PROVISIONAL_CHILD, db.provisionalChildren)
    + CountedOrphan(PENDING_APPROVAL, db.pendingApprovals) + CountedOrphan(PENDING_TASK, db.pendingTasks)
  }

  function LeaseOrphans(db: Database): seq<Orphan> {
    CountedOrphan(ACTIVE_LEASE, db.activeLeases) + CountedOrphan(STALE_LEASE, db.staleLeases)
    + CountedOrphan(UNFENCED_LEASE, db.unfencedLeases)
    + CountedOrphan(UNRESOLVED_SIDE_EFFECT, if AnyUnresolved(db.effects) then 1 else 0)
  }

  function BindingOrphans(db: Database): seq<Orphan> {
    CountedOrphan(MIXED_POINTER_EPOCH, db.mixedEpoch) + CountedOrphan(PENDING_POINTER_SWITCH, db.pendingSwitches)
    + CountedOrphan(ACTIVE_BINDING, db.activeBindings) + CountedOrphan(STALE_BINDING, db.staleBindings)
    + CountedOrphan(UNRESOLVED_BINDING, db.unresolvedBindings)
  }

  function DeliveryOrphans(record: Record, db: Database): seq<Orphan> {
    CountedOrphan(PENDING_QUEUE, db.pendingQueue) + CountedOrphan(PENDING_OUTBOX, db.pendingOutbox)
    + CountedOrphan(INBOX_SEQUENCE_GAP, db.inboxGaps)
    + CountedOrphan(INCOMPLETE_CLEANUP, db.cleanupIncomplete) + CountedOrphan(LIVE_CLEANUP_RESOURCE, db.liveResources)
    + CountedOrphan(ACTIVE_POINTER, if ActivePointerForbidden(record, db) then db.activePointer else 0)
  }

  function DatabaseOrphans(record: Record, db: Database): seq<Orphan> {
    ChildOrphans(db) + LeaseOrphans(db) + BindingOrphans(db) + DeliveryOrphans(record, db)
  }

  function RuntimeOrphans(db: Database, runtime: Runtime): seq<Orphan> {
    ActiveItems(PROCESS, runtime.processes) + ActiveItems(SOCKET, runtime.sockets)
    + ActiveItems(CGROUP, runtime.cgroups)
    + CountedOrphan(EXECUTION_CONTEXT, db.contexts)
  }

  function AuditOrphans(db: Database): seq<Orphan> {
    CountedOrphan(INVALID_AUDIT_STREAM, db.invalidStreams)
    + CountedOrphan(MISSING_TERMINAL_AUDIT_EVENT, db.missingTerminalEvent)
    + CountedOrphan(MANUAL_REVIEW_CONFLICT, db.reviewConflicts)
    + CountedOrphan(MANUAL_REVIEW_OBJECT, db.reviewObjects)
  }

  function ReviewOrphans(db: Database): seq<Orphan> { AuditOrphans(db) + ReviewEffects(db.effects) }

  function OrphanInventory(record: Record, db: Database, runtime: Runtime, files: seq<Observed>): seq<Orphan> {
    DatabaseOrphans(record, db) + RuntimeOrphans(db, runtime) + StrayFiles(files, db.artifacts) + ReviewOrphans(db)
  }

  /** `passed` of the report; a registered failure code is TERMINAL_CLOSURE_INCOMPLETE. */
  function Passed(
      record: Record, db: Database, runtime: Runtime, files: seq<Observed>, readBack: ReadBack): Result<bool> {
    var ast := Validate(record.expression);
    if ast.Err? then Err(ast.error)
    else Ok(Evaluate(ast.value, p => Holds(p, record, db, runtime, files, readBack)) && record.failureCodeRegistered
            && OrphanInventory(record, db, runtime, files) == [])
  }

  predicate AllHold(record: Record, db: Database, runtime: Runtime, files: seq<Observed>, readBack: ReadBack) {
    forall p :: p in KNOWN_PREDICATES ==> Holds(p, record, db, runtime, files, readBack)
  }

  // ---------------------------------------------------------------------------
  // They agree
  // ---------------------------------------------------------------------------

  lemma {:induction false} NoActiveItems(kind: OrphanKind, items: seq<Process>)
    requires NoneActive(items)
    ensures ActiveItems(kind, items) == []
    decreases |items|
  {
    if items != [] { NoActiveItems(kind, items[..|items| - 1]); }
  }

  lemma {:induction false} NoReviewEffects(effects: seq<Effect>)
    requires CountManual(effects) == 0
    ensures ReviewEffects(effects) == []
    decreases |effects|
  {
    if effects != [] { NoReviewEffects(effects[..|effects| - 1]); }
  }

  lemma {:induction false} ObservedFrom(artifacts: seq<Artifact>, probe: Probe, o: Observed) returns (n: nat)
    requires o in ObserveAll(artifacts, probe)
    ensures n < |artifacts| && artifacts[n].id == o.id && o in ObserveArtifact(artifacts[n], probe)
    decreases |artifacts|
  {
    var last := |artifacts| - 1;
    if o in ObserveArtifact(artifacts[last], probe) {
      n := last;
    } else {
      n := ObservedFrom(artifacts[..last], probe, o);
    }
  }

  /** With unique ids, the observation found for an artifact is its own. */
  lemma FoundIsOwn(artifacts: seq<Artifact>, probe: Probe, o: Observed) returns (n: nat)
    requires UniqueIds(artifacts) && o in ObserveAll(artifacts, probe)
    ensures n < |artifacts| && artifacts[n].id == o.id
    ensures FindObserved(ObserveAll(artifacts, probe), o.id) == Some(o)
  {
    n := ObservedFrom(artifacts, probe, o);
    var found := FindObserved(ObserveAll(artifacts, probe), o.id).value;
    var m := ObservedFrom(artifacts, probe, found);
    assert m == n;
  }

  /** Every file present belongs to an artifact the database calls published. */
  predicate NoStrayFile(files: seq<Observed>, artifacts: seq<Artifact>) {
    forall i :: 0 <= i < |files| ==> !files[i].present || IsPublished(artifacts, files[i].id)
  }

  lemma {:induction false} NoStrays(files: seq<Observed>, artifacts: seq<Artifact>)
    ensures StrayFiles(files, artifacts) == [] <==> NoStrayFile(files, artifacts)
    decreases |files|
  {
    if files != [] {
      var front := files[..|files| - 1];
      NoStrays(front, artifacts);
      if NoStrayFile(files, artifacts) {
        forall i | 0 <= i < |front| ensures !front[i].present || IsPublished(artifacts, front[i].id) {
          assert front[i] == files[i];
        }
      }
    }
  }

  lemma ClosedArtifactsLeaveNoStrays(artifacts: seq<Artifact>, probe: Probe)
    requires UniqueIds(artifacts)
        && forall i :: 0 <= i < |artifacts| ==> ArtifactClosed(artifacts[i], ObserveAll(artifacts, probe))
    ensures NoStrayFile(ObserveAll(artifacts, probe), artifacts)
  {
    var files := ObserveAll(artifacts, probe);
    forall i | 0 <= i < |files| ensures !files[i].present || IsPublished(artifacts, files[i].id) {
      var n := FoundIsOwn(artifacts, probe, files[i]);
      assert ArtifactClosed(artifacts[n], files);
    }
  }

  lemma EachHolds(record: Record, db: Database, runtime: Runtime, files: seq<Observed>, readBack: ReadBack)
    requires AllHold(record, db, runtime, files, readBack)
    ensures forall p :: Holds(p, record, db, runtime, files, readBack)
  {
    forall p: Predicate ensures Holds(p, record, db, runtime, files, readBack) { AllAreListed(p); }
  }

  lemma DatabaseIsClean(record: Record, db: Database, runtime: Runtime, files: seq<Observed>, readBack: ReadBack)
    requires forall p :: Holds(p, record, db, runtime, files, readBack)
    ensures DatabaseOrphans(record, db) == []
  {
    assert Holds(ChildrenClosed, record, db, runtime, files, readBack);
    assert Holds(LeaseAndFence, record, db, runtime, files, readBack);
    assert Holds(SideEffectsKnown, record, db, runtime, files, readBack);
    assert Holds(PointerAndEpoch, record, db, runtime, files, readBack);
    assert Holds(BindingsExact, record, db, runtime, files, readBack);
    assert Holds(QueueOutboxInboxClosed, record, db, runtime, files, readBack);
    assert Holds(CleanupComplete, record, db, runtime, files, readBack);
    assert !AnyUnresolved(db.effects);
  }

  lemma RuntimeIsClean(record: Record, db: Database, runtime: Runtime, files: seq<Observed>, readBack: ReadBack)
    requires Holds(RuntimeProcessClosed, record, db, runtime, files, readBack)
    ensures RuntimeOrphans(db, runtime) == []
  {
    NoActiveItems(PROCESS, runtime.processes);
    NoActiveItems(SOCKET, runtime.sockets);
    NoActiveItems(CGROUP, runtime.cgroups);
  }

  lemma ReviewIsClean(record: Record, db: Database, runtime: Runtime, files: seq<Observed>, readBack: ReadBack)
    requires Holds(AuditEvidenceValid, record, db, runtime, files, readBack)
        && Holds(ManualReviewEmpty, record, db, runtime, files, readBack)
    requires ReadByReader(db)
    ensures ReviewOrphans(db) == []
  {
    NoReviewEffects(db.effects);
  }

  /** Twelve true predicates leave exactly the stray files as orphans. */
  lemma OrphansAreStrayFiles(record: Record, db: Database, runtime: Runtime, files: seq<Observed>, readBack: ReadBack)
    requires ReadByReader(db) && AllHold(record, db, runtime, files, readBack)
    ensures OrphanInventory(record, db, runtime, files) == StrayFiles(files, db.artifacts)
  {
    EachHolds(record, db, runtime, files, readBack);
    DatabaseIsClean(record, db, runtime, files, readBack);
    RuntimeIsClean(record, db, runtime, files, readBack);
    ReviewIsClean(record, db, runtime, files, readBack);
  }

  lemma ConjunctionMeansAll(names: seq<Predicate>, values: Predicate -> bool)
    ensures Evaluate(Conjunction(names), values) <==> forall p :: p in names ==> values(p)
  {
    var args := Conjunction(names).args;
    forall i | 0 <= i < |names| ensures Evaluate(args[i], values) == values(names[i]) { }
    if Evaluate(Conjunction(names), values) {
      forall p | p in names ensures values(p) {
        var i :| 0 <= i < |names| && names[i] == p;
        assert Evaluate(args[i], values);
      }
    }
  }

  /** The expression part of the verdict. */
  lemma ExpressionHolds(
      record: Record, names: seq<Predicate>, db: Database, runtime: Runtime, files: seq<Observed>, readBack: ReadBack)
    requires record.expression == ClosureAstForPredicates(names) && names != []
    ensures var clean := OrphanInventory(record, db, runtime, files) == [];
            Passed(record, db, runtime, files, readBack)
            == Ok((forall p :: p in names ==> Holds(p, record, db, runtime, files, readBack))
               && record.failureCodeRegistered && clean)
  {
    var values := p => Holds(p, record, db, runtime, files, readBack);
    PrintedListReadsBack(names);
    ConjunctionMeansAll(names, values);
    assert (forall p :: p in names ==> values(p))
        <==> (forall p :: p in names ==> Holds(p, record, db, runtime, files, readBack)) by {
      forall p | p in names ensures values(p) == Holds(p, record, db, runtime, files, readBack) { }
    }
  }

  /**
   Whatever inventory is supplied: with a printed conjunction that names every
   predicate, `passed` holds exactly when all twelve do, the failure code is the
   registered one and every file present belongs to a published artifact.
   */
  lemma PassedExactlyForAnyInventory(
      record: Record, names: seq<Predicate>, db: Database, runtime: Runtime, files: seq<Observed>, readBack: ReadBack)
    requires ReadByReader(db)
    requires record.expression == ClosureAstForPredicates(names) && forall p: Predicate :: p in names
    ensures Passed(record, db, runtime, files, readBack)
            == Ok(AllHold(record, db, runtime, files, readBack) && record.failureCodeRegistered
               && NoStrayFile(files, db.artifacts))
  {
    assert TerminalState in names;
    ExpressionHolds(record, names, db, runtime, files, readBack);
    NoStrays(files, db.artifacts);
    if AllHold(record, db, runtime, files, readBack) {
      EachHolds(record, db, runtime, files, readBack);
      OrphansAreStrayFiles(record, db, runtime, files, readBack);
    } else {
      var p :| p in KNOWN_PREDICATES && !Holds(p, record, db, runtime, files, readBack);
      assert p in names;
    }
  }

  /**
   With the default filesystem inventory and unique artifact ids there are no stray files, so the two accounts agree.
  */
  lemma PassedExactly(
      record: Record, names: seq<Predicate>, db: Database, runtime: Runtime, probe: Probe, readBack: ReadBack)
    requires UniqueIds(db.artifacts) && ReadByReader(db)
    requires record.expression == ClosureAstForPredicates(names) && forall p: Predicate :: p in names
    ensures var files := ObserveAll(db.artifacts, probe);
            Passed(record, db, runtime, files, readBack)
            == Ok(AllHold(record, db, runtime, files, readBack) && record.failureCodeRegistered)
  {
    var files := ObserveAll(db.artifacts, probe);
    PassedExactlyForAnyInventory(record, names, db, runtime, files, readBack);
    if AllHold(record, db, runtime, files, readBack) {
      AllHoldLeavesNoOrphan(record, db, runtime, probe, readBack);
    }
  }

  /** With the default filesystem inventory, twelve true predicates leave no orphan. */
  lemma AllHoldLeavesNoOrphan(record: Record, db: Database, runtime: Runtime, probe: Probe, readBack: ReadBack)
    requires UniqueIds(db.artifacts) && ReadByReader(db)
    requires AllHold(record, db, runtime, ObserveAll(db.artifacts, probe), readBack)
    ensures OrphanInventory(record, db, runtime, ObserveAll(db.artifacts, probe)) == []
    ensures NoStrayFile(ObserveAll(db.artifacts, probe), db.artifacts)
  {
    var files := ObserveAll(db.artifacts, probe);
    EachHolds(record, db, runtime, files, readBack);
    assert Holds(ArtifactsFilesystemClosed, record, db, runtime, files, readBack);
    ClosedArtifactsLeaveNoStrays(db.artifacts, probe);
    NoStrays(files, db.artifacts);
    OrphansAreStrayFiles(record, db, runtime, files, readBack);
  }

  /** The two accounts disagree exactly when a custom inventory shows a present file of no published artifact. */
  lemma AccountsDisagreeExactly(
      record: Record, names: seq<Predicate>, db: Database, runtime: Runtime, files: seq<Observed>, readBack: ReadBack)
    requires ReadByReader(db) && AllHold(record, db, runtime, files, readBack) && record.failureCodeRegistered
    requires record.expression == ClosureAstForPredicates(names) && forall p: Predicate :: p in names
    ensures Passed(record, db, runtime, files, readBack) == Ok(false)
            <==> exists i :: 0 <= i < |files| && files[i].present && !IsPublished(db.artifacts, files[i].id)
  {
    PassedExactlyForAnyInventory(record, names, db, runtime, files, readBack);
  }

  /** For one, a file the database does not know at all. */
  lemma CustomInventoryMayDisagree(record: Record, db: Database, runtime: Runtime, readBack: ReadBack, stray: Observed)
    requires db.artifacts == [] && AllHold(record, db, runtime, [], readBack) && ReadByReader(db) && stray.present
    requires record.expression == ClosureAstForPredicates(KNOWN_PREDICATES)
    ensures AllHold(record, db, runtime, [stray], readBack)
        && Passed(record, db, runtime, [stray], readBack) == Ok(false)
  {
    forall p | p in KNOWN_PREDICATES ensures Holds(p, record, db, runtime, [stray], readBack) {
      assert Holds(p, record, db, runtime, [], readBack);
    }
    forall p: Predicate ensures p in KNOWN_PREDICATES { AllAreListed(p); }
    PassedExactlyForAnyInventory(record, KNOWN_PREDICATES, db, runtime, [stray], readBack);
    assert !NoStrayFile([stray], db.artifacts) by { assert [stray][0].present; }
  }

  // ---------------------------------------------------------------------------
  // What the evidence, the predicates and the inventory say
  // ---------------------------------------------------------------------------

  /** Only two outcomes exclude an effect; an unsettled one, or an applied one with a compensation, needs a review. */
  lemma ReadEffectExactly(row: EffectRow)
    ensures var e := ReadEffect(row);
            && e.id == row.id && e.status == row.status
            && (e.possibleEffect <==> row.status !in {CONFIRMED_NOT_APPLIED, FAILED_FINAL})
            && (e.manualReview <==> row.status in {UNKNOWN, RECONCILING, MANUAL_REVIEW}
                                    || (row.status == CONFIRMED_APPLIED && row.compensated))
  {
  }

  function ManualOnes(effects: seq<Effect>): set<nat> {
    set i | 0 <= i < |effects| && effects[i].manualReview
  }

  /** The review count is the number of effects that need one. */
  lemma {:induction false} ManualIsCounted(effects: seq<Effect>)
    ensures CountManual(effects) == |ManualOnes(effects)|
    decreases |effects|
  {
    if effects != [] {
      var n := |effects| - 1;
      var front := effects[..n];
      ManualIsCounted(front);
      assert ManualOnes(effects) == ManualOnes(front) + (if effects[n].manualReview then {n} else {});
    }
  }

  /** The default inventory sees the final path of a published artifact, and its digest; of any other the temporary. */
  lemma {:induction false} ObservedExactly(artifacts: seq<Artifact>, probe: Probe, o: Observed)
    ensures o in ObserveAll(artifacts, probe)
            <==> exists n :: 0 <= n < |artifacts| && ObservationOf(artifacts[n], probe, o)
    decreases |artifacts|
  {
    if artifacts != [] {
      var last := |artifacts| - 1;
      var front := artifacts[..last];
      ObservedExactly(front, probe, o);
      assert o in ObserveArtifact(artifacts[last], probe) <==> ObservationOf(artifacts[last], probe, o);
      if o in ObserveAll(front, probe) {
        var n :| 0 <= n < |front| && ObservationOf(front[n], probe, o);
        assert ObservationOf(artifacts[n], probe, o);
      }
      if exists n :: 0 <= n < |artifacts| && ObservationOf(artifacts[n], probe, o) {
        var n :| 0 <= n < |artifacts| && ObservationOf(artifacts[n], probe, o);
        assert n < last ==> ObservationOf(front[n], probe, o);
      }
    }
  }

  ghost predicate ObservationOf(a: Artifact, probe: Probe, o: Observed) {
    && o.id == a.id && o.present == probe(o.path).0
    && (a.state == PUBLISHED
        ==> && a.finalPath == Some(o.path)
            && o.digest == if o.present then Some(probe(o.path).1) else None)
    && (a.state != PUBLISHED ==> o.path == a.tempPath && o.digest == None)
  }

  /** The first observation of an artifact, if there is one, decides whether its file is present. */
  ghost predicate SeenAs(observed: seq<Observed>, id: nat, n: nat) {
    n < |observed| && observed[n].id == id && forall k :: 0 <= k < n ==> observed[k].id != id
  }

  /** A published file must be there with its digest; a cleaned or failed one must be gone; no other state is closed. */
  lemma ArtifactIsClosedExactly(a: Artifact, observed: seq<Observed>)
    ensures (forall n: nat :: SeenAs(observed, a.id, n)
               ==> (ArtifactClosed(a, observed)
                    <==> (a.state == PUBLISHED && observed[n].present && a.expectedDigest.Some?
                          && observed[n].digest == a.expectedDigest)
                         || (a.state in {CLEANED, FAILED} && !observed[n].present)))
    ensures (forall k :: 0 <= k < |observed| ==> observed[k].id != a.id)
            ==> (ArtifactClosed(a, observed) <==> a.state in {CLEANED, FAILED})
  {
  }

  ghost predicate Idle(items: seq<Process>) {
    forall item :: item in items ==> !item.active
  }

  /** Each predicate, as a statement about the evidence. */
  lemma HoldsExactly(record: Record, db: Database, runtime: Runtime, files: seq<Observed>, readBack: ReadBack)
    ensures Holds(TerminalState, record, db, runtime, files, readBack)
            <==> db.rootExists && db.rootState in record.terminalStates
    ensures Holds(ChildrenClosed, record, db, runtime, files, readBack)
            <==> db.pendingCommands + db.provisionalChildren + db.pendingApprovals + db.pendingTasks == 0
    ensures Holds(LeaseAndFence, record, db, runtime, files, readBack)
            <==> db.activeLeases + db.staleLeases + db.unfencedLeases == 0
    ensures Holds(SideEffectsKnown, record, db, runtime, files, readBack)
            <==> forall e :: e in db.effects
                             ==> e.status in {CONFIRMED_APPLIED, CONFIRMED_NOT_APPLIED, FAILED_FINAL}
                                 && (e.possibleEffect ==> readBack(e))
    ensures Holds(PointerAndEpoch, record, db, runtime, files, readBack)
            <==> db.mixedEpoch + db.pendingSwitches + (if record.pointerForbidden then db.activePointer else 0) == 0
    ensures Holds(BindingsExact, record, db, runtime, files, readBack)
            <==> db.activeBindings + db.staleBindings + db.unresolvedBindings == 0
    ensures Holds(QueueOutboxInboxClosed, record, db, runtime, files, readBack)
            <==> db.pendingQueue + db.pendingOutbox + db.inboxGaps == 0
    ensures Holds(RuntimeProcessClosed, record, db, runtime, files, readBack)
            <==> Idle(runtime.processes) && Idle(runtime.sockets) && Idle(runtime.cgroups) && db.contexts == 0
    ensures Holds(ArtifactsFilesystemClosed, record, db, runtime, files, readBack)
            <==> forall a :: a in db.artifacts ==> ArtifactClosed(a, files)
    ensures Holds(CleanupComplete, record, db, runtime, files, readBack)
            <==> db.cleanupIncomplete + db.liveResources == 0
    ensures Holds(AuditEvidenceValid, record, db, runtime, files, readBack)
            <==> db.invalidStreams + db.missingTerminalEvent == 0
    ensures Holds(ManualReviewEmpty, record, db, runtime, files, readBack)
            <==> db.reviewObjects + db.reviewConflicts == 0
  {
    assert forall i :: 0 <= i < |runtime.processes| ==> runtime.processes[i] in runtime.processes;
    assert forall i :: 0 <= i < |runtime.sockets| ==> runtime.sockets[i] in runtime.sockets;
    assert forall i :: 0 <= i < |runtime.cgroups| ==> runtime.cgroups[i] in runtime.cgroups;
    assert forall i :: 0 <= i < |db.effects| ==> db.effects[i] in db.effects;
    assert forall i :: 0 <= i < |db.artifacts| ==> db.artifacts[i] in db.artifacts;
  }

  /** How many of a kind there are; kinds that are listed one by one have no count. */
  function CountOf(kind: OrphanKind, record: Record, db: Database): nat {
    match kind
    case PENDING_COMMAND => db.pendingCommands
    case PROVISIONAL_CHILD => db.provisionalChildren
    case PENDING_APPROVAL => db.pendingApprovals
    case PENDING_TASK => db.pendingTasks
    case ACTIVE_LEASE => db.activeLeases
    case STALE_LEASE => db.staleLeases
    case UNFENCED_LEASE => db.unfencedLeases
    case UNRESOLVED_SIDE_EFFECT =>
      if exists e :: e in db.effects && e.status in {UNKNOWN, RECONCILING, MANUAL_REVIEW, OTHER_STATUS} then 1 else 0
    case MIXED_POINTER_EPOCH => db.mixedEpoch
    case PENDING_POINTER_SWITCH => db.pendingSwitches
    case ACTIVE_BINDING => db.activeBindings
    case STALE_BINDING => db.staleBindings
    case UNRESOLVED_BINDING => db.unresolvedBindings
    case PENDING_QUEUE => db.pendingQueue
    case PENDING_OUTBOX => db.pendingOutbox
    case INBOX_SEQUENCE_GAP => db.inboxGaps
    case INCOMPLETE_CLEANUP => db.cleanupIncomplete
    case LIVE_CLEANUP_RESOURCE => db.liveResources
    case ACTIVE_POINTER => if record.pointerForbidden then db.activePointer else 0
    case EXECUTION_CONTEXT => db.contexts
    case INVALID_AUDIT_STREAM => db.invalidStreams
    case MISSING_TERMINAL_AUDIT_EVENT => db.missingTerminalEvent
    case MANUAL_REVIEW_CONFLICT => db.reviewConflicts
    case MANUAL_REVIEW_OBJECT => db.reviewObjects
    case _ => 0
  }

  lemma UnresolvedExactly(effects: seq<Effect>)
    ensures AnyUnresolved(effects)
            <==> exists e :: e in effects && e.status in {UNKNOWN, RECONCILING, MANUAL_REVIEW, OTHER_STATUS}
  {
    if AnyUnresolved(effects) {
      var i :| 0 <= i < |effects| && !Resolved(effects[i]);
      assert effects[i] in effects;
    }
  }

  lemma {:induction false} ActiveAreListed(kind: OrphanKind, items: seq<Process>, orphan: Orphan)
    ensures orphan in ActiveItems(kind, items)
            <==> orphan.Listed? && orphan.kind == kind && Process(orphan.id, true) in items
    decreases |items|
  {
    if items != [] {
      var front, last := items[..|items| - 1], items[|items| - 1];
      ActiveAreListed(kind, front, orphan);
      assert items == front + [last];
    }
  }

  lemma {:induction false} ReviewsAreListed(effects: seq<Effect>, orphan: Orphan)
    ensures orphan in ReviewEffects(effects)
            <==> && orphan.Listed? && orphan.kind == MANUAL_REVIEW_EFFECT
                 && exists n :: 0 <= n < |effects| && effects[n].id == orphan.id && effects[n].manualReview
    decreases |effects|
  {
    if effects != [] {
      var last := |effects| - 1;
      var front := effects[..last];
      ReviewsAreListed(front, orphan);
      if orphan in ReviewEffects(front) {
        var n :| 0 <= n < |front| && front[n].id == orphan.id && front[n].manualReview;
        assert effects[n] == front[n];
      }
      if orphan.Listed? && exists n :: 0 <= n < |effects| && effects[n].id == orphan.id && effects[n].manualReview {
        var n :| 0 <= n < |effects| && effects[n].id == orphan.id && effects[n].manualReview;
        assert n < last ==> front[n] == effects[n];
      }
    }
  }

  lemma NotPublishedExactly(artifacts: seq<Artifact>, id: nat)
    ensures IsPublished(artifacts, id) <==> !forall a :: a in artifacts && a.id == id ==> a.state != PUBLISHED
  {
    if IsPublished(artifacts, id) {
      var i :| 0 <= i < |artifacts| && artifacts[i].id == id && artifacts[i].state == PUBLISHED;
      assert artifacts[i] in artifacts;
    }
  }

  lemma {:induction false} StraysAreListed(files: seq<Observed>, artifacts: seq<Artifact>, orphan: Orphan)
    ensures orphan in StrayFiles(files, artifacts)
            <==> && orphan.Listed? && orphan.kind == ARTIFACT
                 && exists n :: 0 <= n < |files| && StrayAt(files, artifacts, n, orphan.id)
    decreases |files|
  {
    if files != [] {
      var last := |files| - 1;
      var front := files[..last];
      StraysAreListed(front, artifacts, orphan);
      NotPublishedExactly(artifacts, files[last].id);
      assert StrayAt(files, artifacts, last, files[last].id)
          <==> files[last].present && !IsPublished(artifacts, files[last].id);
      if orphan in StrayFiles(front, artifacts) {
        var n :| 0 <= n < |front| && StrayAt(front, artifacts, n, orphan.id);
        assert StrayAt(files, artifacts, n, orphan.id);
      }
      if orphan.Listed? && exists n :: 0 <= n < |files| && StrayAt(files, artifacts, n, orphan.id) {
        var n :| 0 <= n < |files| && StrayAt(files, artifacts, n, orphan.id);
        assert n < last ==> StrayAt(front, artifacts, n, orphan.id);
      }
    }
  }

  /** A present file under an id no published artifact has. */
  ghost predicate StrayAt(files: seq<Observed>, artifacts: seq<Artifact>, n: nat, id: nat)
    requires n < |files|
  {
    files[n].present && files[n].id == id && forall a :: a in artifacts && a.id == id ==> a.state != PUBLISHED
  }

  /** One group of the inventory: a count of one of its kinds, if there is any. */
  ghost predicate IsCountOf(orphan: Orphan, kinds: set<OrphanKind>, record: Record, db: Database) {
    orphan.Counted? && orphan.kind in kinds && orphan.count > 0 && orphan.count == CountOf(orphan.kind, record, db)
  }

  lemma ChildCounts(record: Record, db: Database, orphan: Orphan)
    ensures orphan in ChildOrphans(db)
            <==> IsCountOf(orphan, {PENDING_COMMAND, PROVISIONAL_CHILD, PENDING_APPROVAL, PENDING_TASK}, record, db)
  {
  }

  lemma LeaseCounts(record: Record, db: Database, orphan: Orphan)
    ensures orphan in LeaseOrphans(db)
            <==> IsCountOf(orphan, {ACTIVE_LEASE, STALE_LEASE, UNFENCED_LEASE, UNRESOLVED_SIDE_EFFECT}, record, db)
  {
    UnresolvedExactly(db.effects);
    assert CountOf(UNRESOLVED_SIDE_EFFECT, record, db) == if AnyUnresolved(db.effects) then 1 else 0;
  }

  lemma BindingCounts(record: Record, db: Database, orphan: Orphan)
    ensures orphan in BindingOrphans(db)
            <==> IsCountOf(orphan, {MIXED_POINTER_EPOCH, PENDING_POINTER_SWITCH, ACTIVE_BINDING, STALE_BINDING,
                                    UNRESOLVED_BINDING}, record, db)
  {
  }

  lemma DeliveryCounts(record: Record, db: Database, orphan: Orphan)
    ensures orphan in DeliveryOrphans(record, db)
            <==> IsCountOf(orphan, {PENDING_QUEUE, PENDING_OUTBOX, INBOX_SEQUENCE_GAP, INCOMPLETE_CLEANUP,
                                    LIVE_CLEANUP_RESOURCE, ACTIVE_POINTER}, record, db)
  {
  }

  lemma RuntimeCounts(record: Record, db: Database, runtime: Runtime, orphan: Orphan)
    ensures orphan in RuntimeOrphans(db, runtime)
            <==> || IsCountOf(orphan, {EXECUTION_CONTEXT}, record, db)
                 || (orphan.Listed? && orphan.kind == PROCESS && Process(orphan.id, true) in runtime.processes)
                 || (orphan.Listed? && orphan.kind == SOCKET && Process(orphan.id, true) in runtime.sockets)
                 || (orphan.Listed? && orphan.kind == CGROUP && Process(orphan.id, true) in runtime.cgroups)
  {
    ActiveAreListed(PROCESS, runtime.processes, orphan);
    ActiveAreListed(SOCKET, runtime.sockets, orphan);
    ActiveAreListed(CGROUP, runtime.cgroups, orphan);
    var counted := CountedOrphan(EXECUTION_CONTEXT, db.contexts);
    assert orphan in counted <==> IsCountOf(orphan, {EXECUTION_CONTEXT}, record, db);
  }

  lemma CountedIs(kind: OrphanKind, count: nat, orphan: Orphan)
    ensures orphan in CountedOrphan(kind, count) <==> orphan == Counted(kind, count) && count > 0
  {
  }

  lemma InFour(a: seq<Orphan>, b: seq<Orphan>, c: seq<Orphan>, d: seq<Orphan>, orphan: Orphan)
    ensures orphan in a + b + c + d <==> orphan in a || orphan in b || orphan in c || orphan in d
  {
  }

  lemma AuditCounts(record: Record, db: Database, orphan: Orphan)
    ensures orphan in AuditOrphans(db)
            <==> IsCountOf(orphan, {INVALID_AUDIT_STREAM, MISSING_TERMINAL_AUDIT_EVENT, MANUAL_REVIEW_CONFLICT,
                                    MANUAL_REVIEW_OBJECT}, record, db)
  {
    InFour(CountedOrphan(INVALID_AUDIT_STREAM, db.invalidStreams),
           CountedOrphan(MISSING_TERMINAL_AUDIT_EVENT, db.missingTerminalEvent),
           CountedOrphan(MANUAL_REVIEW_CONFLICT, db.reviewConflicts),
           CountedOrphan(MANUAL_REVIEW_OBJECT, db.reviewObjects), orphan);
    CountedIs(INVALID_AUDIT_STREAM, db.invalidStreams, orphan);
    CountedIs(MISSING_TERMINAL_AUDIT_EVENT, db.missingTerminalEvent, orphan);
    CountedIs(MANUAL_REVIEW_CONFLICT, db.reviewConflicts, orphan);
    CountedIs(MANUAL_REVIEW_OBJECT, db.reviewObjects, orphan);
  }

  lemma InventoryIs(record: Record, db: Database, runtime: Runtime, files: seq<Observed>, orphan: Orphan)
    ensures orphan in OrphanInventory(record, db, runtime, files)
            <==> || orphan in ChildOrphans(db) || orphan in LeaseOrphans(db) || orphan in BindingOrphans(db)
                 || orphan in DeliveryOrphans(record, db) || orphan in RuntimeOrphans(db, runtime)
                 || orphan in StrayFiles(files, db.artifacts) || orphan in AuditOrphans(db)
                 || orphan in ReviewEffects(db.effects)
  {
  }

  /** The inventory reports each kind that is counted once, with its count, if there is any. */
  lemma CountedExactly(
      record: Record, db: Database, runtime: Runtime, files: seq<Observed>, kind: OrphanKind, count: nat)
    ensures Counted(kind, count) in OrphanInventory(record, db, runtime, files)
            <==> count > 0 && count == CountOf(kind, record, db)
  {
    var orphan := Counted(kind, count);
    InventoryIs(record, db, runtime, files, orphan);
    ChildCounts(record, db, orphan);
    LeaseCounts(record, db, orphan);
    BindingCounts(record, db, orphan);
    DeliveryCounts(record, db, orphan);
    RuntimeCounts(record, db, runtime, orphan);
    AuditCounts(record, db, orphan);
    StraysAreListed(files, db.artifacts, orphan);
    ReviewsAreListed(db.effects, orphan);
  }

  /** And it lists what is still there or under review: processes, sockets, groups, stray files and effects. */
  lemma ListedExactly(
      record: Record, db: Database, runtime: Runtime, files: seq<Observed>, kind: OrphanKind, id: nat)
    ensures Listed(kind, id) in OrphanInventory(record, db, runtime, files)
            <==> || (kind == PROCESS && Process(id, true) in runtime.processes)
                 || (kind == SOCKET && Process(id, true) in runtime.sockets)
                 || (kind == CGROUP && Process(id, true) in runtime.cgroups)
                 || (kind == ARTIFACT && exists n :: 0 <= n < |files| && StrayAt(files, db.artifacts, n, id))
                 || (kind == MANUAL_REVIEW_EFFECT
                     && exists n :: 0 <= n < |db.effects| && db.effects[n].id == id && db.effects[n].manualReview)
  {
    var orphan := Listed(kind, id);
    InventoryIs(record, db, runtime, files, orphan);
    ChildCounts(record, db, orphan);
    LeaseCounts(record, db, orphan);
    BindingCounts(record, db, orphan);
    DeliveryCounts(record, db, orphan);
    RuntimeCounts(record, db, runtime, orphan);
    AuditCounts(record, db, orphan);
    StraysAreListed(files, db.artifacts, orphan);
    ReviewsAreListed(db.effects, orphan);
  }
}
