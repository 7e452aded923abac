/** Role-based review: required roles, the evaluation of one reviewer's result, and the consolidated memo. */
module ReviewerMemo {
  import opened Js
  import opened Json
  import opened EvidenceMatrix
  import opened CanonicalEvidence

  datatype Verdict = APPROVED | CHANGES_REQUESTED | UNKNOWN

  datatype Status = Running | Completed | FailedStatus | Aborted

  /** What the free text of a review is searched for. The phrase lists stand behind arbitrary predicates. */
  datatype TextTests = TextTests(
    staticOnly: string -> bool, promptOnly: (seq<string>, string) -> bool, unresolved: string -> bool, docsHint: string -> bool)

  datatype Target = Target(role: Role, required: bool, criteria: seq<string>)

  datatype ReviewResult = ReviewResult(verdict: Verdict, finalOutput: string, fallbackSource: bool, status: Option<Status>, details: Option<Json>)

  datatype Reason =
    | Stated(text: string) | ReviewerFailed | VerdictUnknown | ProvisionalSource | StaticOnlyProse | NoTypedEvidence | PromptOnlyProse
    | RequestedChanges

  datatype Evaluation = Evaluation(
    role: Role, required: bool, verdict: Verdict, effective: Verdict, provisional: bool, blocking: seq<Reason>, weak: bool,
    promptCaveat: bool, risk: bool)

  // ---------- Required roles ----------

  const DEFAULT_ROLES: seq<Role> := [Behavior, EvidenceTest, Implementation, Maintainability, Regression]

  datatype Options = Options(goals: seq<string>, defaults: Option<seq<Role>>, includeDocs: bool, files: seq<string>, criteria: seq<string>)

  function AddRoles(list: seq<Role>, more: seq<Role>): seq<Role> {
    if more == [] then list
    else
      var before, r := AddRoles(list, more[..|more| - 1]), more[|more| - 1];
      if r in before then before else before + [r]
  }

  function MatrixRoles(matrix: seq<Entry>): seq<Role> {
    if matrix == [] then [] else AddRoles(MatrixRoles(matrix[..|matrix| - 1]), matrix[|matrix| - 1].roles)
  }

  predicate DocsInScope(t: TextTests, matrix: seq<Entry>, o: Options) {
    || o.includeDocs
    || (exists i :: 0 <= i < |o.files| && t.docsHint(o.files[i]))
    || (exists i :: 0 <= i < |o.criteria| && t.docsHint(o.criteria[i]))
    || (exists i :: 0 <= i < |matrix| && (matrix[i].kind.Documentation? || matrix[i].kind.Configuration? || DocsConfig in matrix[i].roles))
  }

  function RequiredRoles(t: TextTests, matrix: seq<Entry>, o: Options): seq<Role> {
    var own := AddRoles(MatrixRoles(matrix), if DocsInScope(t, matrix, o) then [DocsConfig] else []);
    if matrix != [] || o.defaults.Some? then AddRoles(own, if o.defaults.Some? then o.defaults.value else DEFAULT_ROLES) else own
  }

  /** The role set as the loops build it, with the set of roles already seen. */
  method DeriveRoles(t: TextTests, matrix: seq<Entry>, o: Options) returns (roles: seq<Role>)
    ensures roles == RequiredRoles(t, matrix, o)
  {
    roles := [];
    for i := 0 to |matrix|
      invariant roles == MatrixRoles(matrix[..i])
    {
      assert matrix[..i + 1][..i] == matrix[..i];
      roles := Add(roles, matrix[i].roles);
    }
    assert matrix[..|matrix|] == matrix;
    if DocsInScope(t, matrix, o) {
      roles := Add(roles, [DocsConfig]);
    }
    if matrix != [] || o.defaults.Some? {
      roles := Add(roles, if o.defaults.Some? then o.defaults.value else DEFAULT_ROLES);
    }
  }

  method Add(list: seq<Role>, more: seq<Role>) returns (roles: seq<Role>)
    ensures roles == AddRoles(list, more)
  {
    roles := list;
    for i := 0 to |more|
      invariant roles == AddRoles(list, more[..i])
    {
      assert more[..i + 1][..i] == more[..i];
      if more[i] !in roles {
        roles := roles + [more[i]];
      }
    }
    assert more[..|more|] == more;
  }

  /** The criteria of the rows that name the role. */
  function RoleCriteria(matrix: seq<Entry>, role: Role): seq<string> {
    if matrix == [] then []
    else RoleCriteria(matrix[..|matrix| - 1], role) + if role in matrix[|matrix| - 1].roles then [matrix[|matrix| - 1].criterion] else []
  }

  function TargetFor(matrix: seq<Entry>, o: Options, role: Role): Target {
    var own := RoleCriteria(matrix, role);
    Target(role, true, if own != [] then own else o.criteria[..Min(5, |o.criteria|)])
  }

  // ---------- The canonical reviewer evidence ----------

  predicate HasText(j: Json, key: string) {
    var v := Get(Some(j), key);
    v.Some? && v.value.Str? && v.value.s != ""
  }

  predicate NamesText(items: seq<Json>, key: string) {
    exists i :: 0 <= i < |items| && HasText(items[i], key)
  }

  function VerdictNamed(j: Option<Json>): Option<Verdict> {
    if j == Some(Str("APPROVED")) then Some(APPROVED)
    else if j == Some(Str("CHANGES_REQUESTED")) then Some(CHANGES_REQUESTED)
    else if j == Some(Str("UNKNOWN")) then Some(UNKNOWN)
    else None
  }

  /** Typed evidence has coverage rows or command outcomes, or is a rejection that gives a reason. */
  predicate IsTyped(j: Json) {
    var effective := Get(Some(j), "effectiveVerdict");
    var verdict := if effective.Some? && !effective.value.Null? then effective else Get(Some(j), "verdict");
    j.Obj? && (
      || NamesText(Items(Get(Some(j), "criterionCoverage")), "criterion")
      || NamesText(Items(Get(Some(j), "commandsRun")), "command")
      || (VerdictNamed(verdict) == Some(CHANGES_REQUESTED) && Texts(Get(Some(j), "blockingReasons")) != []))
  }

  function TypedReview(candidate: Option<Json>): Option<Json> {
    if candidate.None? then None
    else
      var found := Extract(candidate.value);
      if found.canonical && found.reviewer.Some? && IsTyped(found.reviewer.value) then found.reviewer else None
  }

  /** The typed review on the result's envelope, else on the envelope of its parsed sidecar. */
  function Review(r: ReviewResult): Option<Json> {
    var direct := TypedReview(Get(r.details, "evidence"));
    if direct.Some? then direct else TypedReview(Get(Record(Get(r.details, "done")), "evidence"))
  }

  function CanonicalVerdict(review: Option<Json>): Option<Verdict> {
    var effective := VerdictNamed(Get(review, "effectiveVerdict"));
    if effective.Some? then effective else VerdictNamed(Get(review, "verdict"))
  }

  // ---------- Evaluation ----------

  const RUNTIME_HINTS: seq<string> := ["tui", "runtime", "ui", "terminal", "pane", "cmux", "tool render", "toolresult"]

  predicate RuntimeRole(role: Role) {
    role.Behavior? || role.EvidenceTest? || role.Regression?
  }

  predicate MentionsRuntime(criterion: string) {
    exists n :: 0 <= n < |RUNTIME_HINTS| && Contains(ToLower(criterion), RUNTIME_HINTS[n])
  }

  predicate RuntimeScope(t: Target) {
    RuntimeRole(t.role) || exists i :: 0 <= i < |t.criteria| && MentionsRuntime(t.criteria[i])
  }

  predicate Failed(r: ReviewResult) {
    r.status == Some(FailedStatus) || r.status == Some(Aborted)
  }

  function BaseVerdict(r: ReviewResult): Verdict {
    var canonical := CanonicalVerdict(Review(r));
    if canonical.Some? then canonical.value else if r.verdict.CHANGES_REQUESTED? then CHANGES_REQUESTED else UNKNOWN
  }

  function Stateds(texts: seq<string>): seq<Reason> {
    seq(|texts|, i requires 0 <= i < |texts| => Stated(texts[i]))
  }

  predicate ClaimsApproval(r: ReviewResult) {
    BaseVerdict(r).APPROVED? || r.verdict.APPROVED?
  }

  predicate Vetoes(tests: TextTests, t: Target, r: ReviewResult) {
    ClaimsApproval(r) && RuntimeScope(t) && tests.promptOnly(t.criteria, r.finalOutput)
  }

  function Blocking(tests: TextTests, t: Target, r: ReviewResult): seq<Reason> {
    var review, base := Review(r), BaseVerdict(r);
    Stateds(Texts(Get(review, "blockingReasons")))
    + (if Failed(r) then [ReviewerFailed] else [])
    + (if t.required && base.UNKNOWN? then [VerdictUnknown] else [])
    + (if r.fallbackSource && review.None? then [ProvisionalSource] else [])
    + (if ClaimsApproval(r) && RuntimeRole(t.role) && review.None?
       then [if tests.staticOnly(r.finalOutput) then StaticOnlyProse else NoTypedEvidence] else [])
    + (if Vetoes(tests, t, r) then [PromptOnlyProse] else [])
    + (if t.required && base.CHANGES_REQUESTED? then [RequestedChanges] else [])
  }

  function Evaluate(tests: TextTests, t: Target, r: ReviewResult): Evaluation {
    var review, base, blocking := Review(r), BaseVerdict(r), Blocking(tests, t, r);
    var effective :=
      if blocking != [] && (t.required || base.APPROVED?) then CHANGES_REQUESTED else base;
    Evaluation(t.role, t.required, base, effective, t.required && r.fallbackSource && review.None?, blocking,
               Texts(Get(review, "weakEvidence")) != [] || (ClaimsApproval(r) && RuntimeRole(t.role) && review.None?),
               Texts(Get(review, "promptOnlyCaveats")) != [] || Vetoes(tests, t, r),
               Texts(Get(review, "unresolvedRisks")) != [] || tests.unresolved(r.finalOutput))
  }

  // ---------- The memo ----------

  datatype Memo = Memo(
    approved: bool, approvals: seq<Evaluation>, changesRequested: seq<Evaluation>, unknown: seq<Evaluation>, weak: seq<Evaluation>,
    promptCaveats: seq<Evaluation>, risks: seq<Evaluation>, provisional: seq<Evaluation>, missing: seq<Role>)

  predicate Clears(e: Evaluation) {
    e.effective.APPROVED? && !e.provisional && (e.required ==> e.blocking == [])
  }

  predicate Evaluated(evaluations: seq<Evaluation>, role: Role) {
    exists i :: 0 <= i < |evaluations| && evaluations[i].role == role
  }

  /** The lists of a memo: three verdicts, one of which every evaluation gets, and four caveats. */
  datatype Bucket = Approvals | Changes | Unknowns | WeakOnes | CaveatOnes | RiskyOnes | ProvisionalOnes

  predicate Belongs(e: Evaluation, b: Bucket) {
    match b
    case Approvals => e.effective.APPROVED? && !e.provisional
    case Changes => e.effective.CHANGES_REQUESTED? || e.provisional
    case Unknowns => e.effective.UNKNOWN? && !e.provisional
    case WeakOnes => e.weak
    case CaveatOnes => e.promptCaveat
    case RiskyOnes => e.risk
    case ProvisionalOnes => e.provisional
  }

  function Select(evaluations: seq<Evaluation>, b: Bucket): seq<Evaluation> {
    if evaluations == [] then []
    else
      var e := evaluations[|evaluations| - 1];
      Select(evaluations[..|evaluations| - 1], b) + if Belongs(e, b) then [e] else []
  }

  lemma SelectOneMore(evaluations: seq<Evaluation>, i: nat, b: Bucket)
    requires i < |evaluations|
    ensures Select(evaluations[..i + 1], b)
            == if Belongs(evaluations[i], b) then Select(evaluations[..i], b) + [evaluations[i]] else Select(evaluations[..i], b)
  {
    assert evaluations[..i + 1][..i] == evaluations[..i];
    hide Belongs;
  }

  ghost predicate AllClear(evaluations: seq<Evaluation>, n: nat)
    requires n <= |evaluations|
  {
    forall j :: 0 <= j < n ==> Clears(evaluations[j])
  }

  lemma OneMoreClear(evaluations: seq<Evaluation>, i: nat)
    requires i < |evaluations|
    ensures AllClear(evaluations, i + 1) <==> AllClear(evaluations, i) && Clears(evaluations[i])
  {
    hide Clears;
  }

  lemma WhereItGoes(e: Evaluation)
    ensures Belongs(e, Approvals) <==> e.effective.APPROVED? && !e.provisional
    ensures Belongs(e, Changes) <==> e.effective.CHANGES_REQUESTED? || e.provisional
    ensures Belongs(e, Unknowns) <==> e.effective.UNKNOWN? && !e.provisional
    ensures Clears(e)
            <==> Belongs(e, Approvals) && !(e.required && (!e.effective.APPROVED? || e.provisional || e.blocking != []))
  {
  }

  /** Each evaluation goes to its verdict's list, in order; `clear` says that none stands in the way. */
  method Sort(evaluations: seq<Evaluation>)
    returns (approvals: seq<Evaluation>, changes: seq<Evaluation>, unknown: seq<Evaluation>, clear: bool)
    ensures approvals == Select(evaluations, Approvals) && changes == Select(evaluations, Changes) && unknown == Select(evaluations, Unknowns)
    ensures clear <==> forall i :: 0 <= i < |evaluations| ==> Clears(evaluations[i])
  {
    NothingSelected(evaluations);
    hide Select, Belongs, Clears, AllClear;
    approvals, changes, unknown := [], [], [];
    var blocked := false;
    for i := 0 to |evaluations|
      invariant approvals == Select(evaluations[..i], Approvals)
      invariant changes == Select(evaluations[..i], Changes)
      invariant unknown == Select(evaluations[..i], Unknowns)
      invariant !blocked && changes == [] && unknown == [] <==> AllClear(evaluations, i)
    {
      var e := evaluations[i];
      SelectOneMore(evaluations, i, Approvals);
      SelectOneMore(evaluations, i, Changes);
      SelectOneMore(evaluations, i, Unknowns);
      OneMoreClear(evaluations, i);
      WhereItGoes(e);
      if e.effective.APPROVED? && !e.provisional {
        approvals := approvals + [e];
      } else if e.effective.CHANGES_REQUESTED? || e.provisional {
        changes := changes + [e];
      } else {
        unknown := unknown + [e];
      }
      if e.required && (!e.effective.APPROVED? || e.provisional || e.blocking != []) {
        blocked := true;
      }
    }
    assert evaluations[..|evaluations|] == evaluations;
    clear := !blocked && changes == [] && unknown == [];
    AllClearIs(evaluations);
  }

  lemma NothingSelected(evaluations: seq<Evaluation>)
    ensures AllClear(evaluations, 0) && forall b :: Select(evaluations[..0], b) == []
  {
  }

  lemma AllClearIs(evaluations: seq<Evaluation>)
    ensures AllClear(evaluations, |evaluations|) <==> forall i :: 0 <= i < |evaluations| ==> Clears(evaluations[i])
  {
    hide Clears;
  }

  /** The caveats of the evaluations, in order; one evaluation may have several. */
  method SortCaveats(evaluations: seq<Evaluation>)
    returns (weak: seq<Evaluation>, caveats: seq<Evaluation>, risks: seq<Evaluation>, provisional: seq<Evaluation>)
    ensures weak == Select(evaluations, WeakOnes) && caveats == Select(evaluations, CaveatOnes)
    ensures risks == Select(evaluations, RiskyOnes) && provisional == Select(evaluations, ProvisionalOnes)
  {
    weak, caveats, risks, provisional := [], [], [], [];
    for i := 0 to |evaluations|
      invariant weak == Select(evaluations[..i], WeakOnes) && caveats == Select(evaluations[..i], CaveatOnes)
      invariant risks == Select(evaluations[..i], RiskyOnes) && provisional == Select(evaluations[..i], ProvisionalOnes)
    {
      hide Select;
      var e := evaluations[i];
      SelectOneMore(evaluations, i, WeakOnes);
      SelectOneMore(evaluations, i, CaveatOnes);
      SelectOneMore(evaluations, i, RiskyOnes);
      SelectOneMore(evaluations, i, ProvisionalOnes);
      if e.weak {
        weak := weak + [e];
      }
      if e.promptCaveat {
        caveats := caveats + [e];
      }
      if e.risk {
        risks := risks + [e];
      }
      if e.provisional {
        provisional := provisional + [e];
      }
    }
    assert evaluations[..|evaluations|] == evaluations;
  }

  method MissingRoles(evaluations: seq<Evaluation>, required: seq<Role>) returns (missing: seq<Role>)
    ensures forall role :: role in missing <==> role in required && !Evaluated(evaluations, role)
    ensures missing == [] <==> forall k :: 0 <= k < |required| ==> Evaluated(evaluations, required[k])
  {
    missing := [];
    for k := 0 to |required|
      invariant forall role :: role in missing <==> role in required[..k] && !Evaluated(evaluations, role)
      invariant missing == [] <==> forall j :: 0 <= j < k ==> Evaluated(evaluations, required[j])
    {
      if !Evaluated(evaluations, required[k]) {
        missing := missing + [required[k]];
      }
    }
    assert required[..|required|] == required;
  }

  /** What the memo on some evaluations says: approved exactly when every one clears and every required role has one. */
  predicate IsMemo(memo: Memo, evaluations: seq<Evaluation>, required: seq<Role>) {
    && (memo.approved
        <==> (forall i :: 0 <= i < |evaluations| ==> Clears(evaluations[i]))
             && (forall k :: 0 <= k < |required| ==> Evaluated(evaluations, required[k])))
    && memo.approvals == Select(evaluations, Approvals) && memo.changesRequested == Select(evaluations, Changes)
    && memo.unknown == Select(evaluations, Unknowns) && memo.weak == Select(evaluations, WeakOnes)
    && memo.promptCaveats == Select(evaluations, CaveatOnes) && memo.risks == Select(evaluations, RiskyOnes)
    && memo.provisional == Select(evaluations, ProvisionalOnes)
    && (forall role :: role in memo.missing <==> role in required && !Evaluated(evaluations, role))
  }

  method Consolidate(evaluations: seq<Evaluation>, required: seq<Role>) returns (memo: Memo)
    ensures IsMemo(memo, evaluations, required)
  {
    hide Clears, Evaluated, Select;
    var approvals, changes, unknown, clear := Sort(evaluations);
    var weak, caveats, risks, provisional := SortCaveats(evaluations);
    var missing := MissingRoles(evaluations, required);
    memo := Memo(clear && missing == [], approvals, changes, unknown, weak, caveats, risks, provisional, missing);
  }

  const NO_RESULT := ReviewResult(UNKNOWN, "(no reviewer result provided)", false, Some(FailedStatus), None)

  method EvaluateAll(tests: TextTests, matrix: seq<Entry>, results: seq<ReviewResult>, o: Options, roles: seq<Role>) returns (evaluations: seq<Evaluation>)
    requires roles == RequiredRoles(tests, matrix, o)
    ensures |evaluations| == |roles|
    ensures forall j :: 0 <= j < |roles| ==> evaluations[j] == EvaluationFor(tests, matrix, results, o, j)
    ensures forall j :: 0 <= j < |roles| ==> evaluations[j].role == roles[j]
  {
    hide Evaluate, TargetFor, EvaluationFor, RequiredRoles;
    evaluations := [];
    for i := 0 to |roles|
      invariant |evaluations| == i
      invariant forall j :: 0 <= j < i ==> evaluations[j] == EvaluationFor(tests, matrix, results, o, j)
      invariant forall j :: 0 <= j < i ==> evaluations[j].role == roles[j]
    {
      var result := if i < |results| then results[i] else NO_RESULT;
      EvaluationIs(tests, matrix, results, o, i);
      evaluations := evaluations + [Evaluate(tests, TargetFor(matrix, o, roles[i]), result)];
    }
  }

  lemma EvaluationIs(tests: TextTests, matrix: seq<Entry>, results: seq<ReviewResult>, o: Options, i: nat)
    requires i < |RequiredRoles(tests, matrix, o)|
    ensures var role := RequiredRoles(tests, matrix, o)[i];
            && EvaluationFor(tests, matrix, results, o, i)
               == Evaluate(tests, TargetFor(matrix, o, role), if i < |results| then results[i] else NO_RESULT)
            && EvaluationFor(tests, matrix, results, o, i).role == role
  {
    hide Blocking, Review, BaseVerdict, RequiredRoles, RoleCriteria;
  }

  /** Derive, evaluate, consolidate: approved exactly when every required role's evaluation clears. */
  method BuildMemo(tests: TextTests, matrix: seq<Entry>, results: seq<ReviewResult>, o: Options) returns (memo: Memo)
    ensures memo.approved <==> MemoApproved(tests, matrix, results, o)
  {
    hide RequiredRoles, EvaluationFor, Clears;
    var roles := DeriveRoles(tests, matrix, o);
    var evaluations := EvaluateAll(tests, matrix, results, o, roles);
    memo := Consolidate(evaluations, roles);
    forall k | 0 <= k < |roles|
      ensures Evaluated(evaluations, roles[k])
    {
      assert evaluations[k].role == roles[k];
    }
    assert forall k :: 0 <= k < |roles| ==> Evaluated(evaluations, roles[k]);
    hide Evaluated;
    assert MemoApproved(tests, matrix, results, o) <==> forall i :: 0 <= i < |evaluations| ==> Clears(evaluations[i]);
  }

  function EvaluationFor(tests: TextTests, matrix: seq<Entry>, results: seq<ReviewResult>, o: Options, i: nat): Evaluation
    requires i < |RequiredRoles(tests, matrix, o)|
  {
    Evaluate(tests, TargetFor(matrix, o, RequiredRoles(tests, matrix, o)[i]), if i < |results| then results[i] else NO_RESULT)
  }

  /** Every required role's evaluation clears. */
  predicate MemoApproved(tests: TextTests, matrix: seq<Entry>, results: seq<ReviewResult>, o: Options) {
    forall i :: 0 <= i < |RequiredRoles(tests, matrix, o)| ==> Clears(EvaluationFor(tests, matrix, results, o, i))
  }
}
