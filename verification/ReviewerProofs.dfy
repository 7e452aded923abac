/** What an approved memo means, and what the prose of a review can and cannot do. */
module ReviewerProofs {
  import opened Js
  import opened Json
  import opened EvidenceMatrix
  import opened CanonicalEvidence
  import opened ReviewerMemo

  // ---------- One evaluation ----------

  /** Some object of the list has a text under the key. */
  predicate SomeNamed(items: seq<Json>, key: string) {
    exists i :: 0 <= i < |items| && NamedUnder(Get(Some(items[i]), key))
  }

  predicate NamedUnder(j: Option<Json>) {
    j.Some? && j.value.Str? && j.value.s != ""
  }

  /** Typed: the object has a coverage row or a command with a name, or its verdict is a rejection that gives a reason. */
  predicate SaysTyped(review: Json) {
    var effective := Get(Some(review), "effectiveVerdict");
    var said := if effective.None? || effective.value.Null? then Get(Some(review), "verdict") else effective;
    || SomeNamed(Items(Get(Some(review), "criterionCoverage")), "criterion")
    || SomeNamed(Items(Get(Some(review), "commandsRun")), "command")
    || (said == Some(Str("CHANGES_REQUESTED")) && Texts(Get(Some(review), "blockingReasons")) != [])
  }

  /** The object says APPROVED: as its effective verdict, or as its verdict where the effective one is no token. */
  predicate SaysApproved(review: Json) {
    var effective := Get(Some(review), "effectiveVerdict");
    || effective == Some(Str("APPROVED"))
    || (&& effective != Some(Str("CHANGES_REQUESTED")) && effective != Some(Str("UNKNOWN"))
        && Get(Some(review), "verdict") == Some(Str("APPROVED")))
  }

  /** The typed review object on an envelope. */
  function TypedOn(envelope: Option<Json>): Option<Json> {
    if envelope.None? then None
    else
      var found := Extract(envelope.value).reviewer;
      if found.Some? && SaysTyped(found.value) then found else None
  }

  /** The review object that counts: on the result's own envelope, else on the envelope of its sidecar. */
  function ReviewObject(details: Option<Json>): Option<Json> {
    var direct := TypedOn(Get(details, "evidence"));
    if direct.Some? then direct else TypedOn(Get(Get(details, "done"), "evidence"))
  }

  /** The structured side of an approval: a typed review object on the canonical envelope that says APPROVED and states no blocker, from a reviewer that did not fail. */
  predicate CanonicallyApproved(r: ReviewResult) {
    var review := ReviewObject(r.details);
    && review.Some? && SaysApproved(review.value) && Texts(Get(review, "blockingReasons")) == []
    && r.status != Some(FailedStatus) && r.status != Some(Aborted)
  }

  /** A role or criterion about what happens when the software runs. */
  ghost predicate RuntimeMatter(t: Target) {
    t.role in {Behavior, EvidenceTest, Regression} || exists i :: 0 <= i < |t.criteria| && Hinted(ToLower(t.criteria[i]))
  }

  /** One of the runtime hints stands somewhere in the text. */
  ghost predicate Hinted(s: string) {
    exists n, before, after :: 0 <= n < |RUNTIME_HINTS| && Around(s, before, RUNTIME_HINTS[n], after)
  }

  lemma MentionsAreHints(criterion: string)
    ensures MentionsRuntime(criterion) <==> Hinted(ToLower(criterion))
  {
    hide Contains, ToLower, Around, RUNTIME_HINTS;
    forall n | 0 <= n < |RUNTIME_HINTS|
      ensures Contains(ToLower(criterion), RUNTIME_HINTS[n]) <==> exists before, after :: Around(ToLower(criterion), before, RUNTIME_HINTS[n], after)
    {
      ContainsIff(ToLower(criterion), RUNTIME_HINTS[n]);
    }
  }

  lemma TypedIsSaid(review: Json)
    ensures IsTyped(review) <==> SaysTyped(review)
  {
    hide Texts;
    var (rows, runs) := (Items(Get(Some(review), "criterionCoverage")), Items(Get(Some(review), "commandsRun")));
    assert NamesText(rows, "criterion") <==> SomeNamed(rows, "criterion");
    assert NamesText(runs, "command") <==> SomeNamed(runs, "command");
    hide NamesText, SomeNamed;
  }

  lemma TypedReviewIsOn(envelope: Option<Json>)
    ensures TypedReview(envelope) == TypedOn(envelope)
  {
    hide Extract, IsTyped, SaysTyped;
    if envelope.Some? {
      PayloadsAreCanonical(envelope.value);
      var found := Extract(envelope.value).reviewer;
      if found.Some? {
        TypedIsSaid(found.value);
      }
    }
  }

  lemma ReviewIsTheObject(r: ReviewResult)
    ensures Review(r) == ReviewObject(r.details)
  {
    TypedReviewIsOn(Get(r.details, "evidence"));
    TypedReviewIsOn(Get(Record(Get(r.details, "done")), "evidence"));
    hide TypedReview, TypedOn;
  }

  lemma VerdictIsSaid(review: Json)
    ensures CanonicalVerdict(Some(review)) == Some(APPROVED) <==> SaysApproved(review)
  {
  }

  lemma ApprovalIsCanonical(r: ReviewResult)
    ensures CanonicallyApproved(r)
            <==> Review(r).Some? && CanonicalVerdict(Review(r)) == Some(APPROVED) && Texts(Get(Review(r), "blockingReasons")) == [] && !Failed(r)
  {
    ReviewIsTheObject(r);
    var review := ReviewObject(r.details);
    if review.Some? {
      VerdictIsSaid(review.value);
    }
    hide Review, ReviewObject, CanonicalVerdict, SaysApproved, Texts;
  }

  lemma NoBlockersIff(tests: TextTests, t: Target, r: ReviewResult)
    requires t.required
    ensures Blocking(tests, t, r) == [] && BaseVerdict(r).APPROVED? <==> CanonicallyApproved(r) && !(RuntimeScope(t) && tests.promptOnly(t.criteria, r.finalOutput))
  {
    ApprovalIsCanonical(r);
    hide Review, CanonicallyApproved, Texts, RuntimeScope, RuntimeRole;
    var texts := Texts(Get(Review(r), "blockingReasons"));
    assert Stateds(texts) == [] <==> texts == [];
    hide Stateds;
  }

  /**
   * A required role clears exactly when the canonical review approves it and, for a role or criterion in runtime scope, the
   * final text does not argue for a prompt-only mitigation. The verdict parsed from the text, the completion source
   * and every field beside the envelope have no part in it.
   */
  lemma RequiredRoleClearsIff(tests: TextTests, t: Target, r: ReviewResult)
    requires t.required
    ensures Clears(Evaluate(tests, t, r))
            <==> CanonicallyApproved(r) && !(RuntimeMatter(t) && tests.promptOnly(t.criteria, r.finalOutput))
  {
    NoBlockersIff(tests, t, r);
    ApprovalIsCanonical(r);
    RuntimeIsScope(t);
    hide Blocking, CanonicallyApproved, RuntimeScope, RuntimeMatter, Review;
  }

  lemma RuntimeIsScope(t: Target)
    ensures RuntimeScope(t) == RuntimeMatter(t)
  {
    forall i | 0 <= i < |t.criteria|
      ensures MentionsRuntime(t.criteria[i]) <==> Hinted(ToLower(t.criteria[i]))
    {
      MentionsAreHints(t.criteria[i]);
    }
    hide MentionsRuntime, Hinted, ToLower;
  }

  predicate IsToken(j: Option<Json>) {
    j == Some(Str("APPROVED")) || j == Some(Str("CHANGES_REQUESTED")) || j == Some(Str("UNKNOWN"))
  }

  /** The object says CHANGES_REQUESTED, in the same order of fields. */
  predicate SaysRejected(review: Json) {
    var effective := Get(Some(review), "effectiveVerdict");
    effective == Some(Str("CHANGES_REQUESTED")) || (!IsToken(effective) && Get(Some(review), "verdict") == Some(Str("CHANGES_REQUESTED")))
  }

  predicate SaysNothing(review: Json) {
    !IsToken(Get(Some(review), "effectiveVerdict")) && !IsToken(Get(Some(review), "verdict"))
  }

  /** The verdict of an evaluation: the object's own token, and where it has none a rejection read from the text counts. */
  lemma VerdictSays(tests: TextTests, t: Target, r: ReviewResult)
    ensures var (e, review) := (Evaluate(tests, t, r), ReviewObject(r.details));
            && (e.verdict == APPROVED <==> review.Some? && SaysApproved(review.value))
            && (e.verdict == CHANGES_REQUESTED
                <==> (review.Some? && SaysRejected(review.value))
                     || ((review.None? || SaysNothing(review.value)) && r.verdict == CHANGES_REQUESTED))
  {
    ReviewIsTheObject(r);
    hide Review, ReviewObject, Blocking, Texts, Vetoes, ClaimsApproval;
  }

  /** What an evaluation lists against a review, whether its role is required or not. */
  lemma EvaluationSays(tests: TextTests, t: Target, r: ReviewResult)
    ensures var (e, review) := (Evaluate(tests, t, r), ReviewObject(r.details));
            var claims := e.verdict == APPROVED || r.verdict == APPROVED;
            var unbacked := review.None? && claims && t.role in {Behavior, EvidenceTest, Regression};
            var argued := claims && RuntimeMatter(t) && tests.promptOnly(t.criteria, r.finalOutput);
            && e.role == t.role && e.required == t.required
            && (e.weak <==> Texts(Get(review, "weakEvidence")) != [] || unbacked)
            && (e.promptCaveat <==> Texts(Get(review, "promptOnlyCaveats")) != [] || argued)
            && (e.risk <==> Texts(Get(review, "unresolvedRisks")) != [] || tests.unresolved(r.finalOutput))
            && (e.provisional <==> t.required && r.fallbackSource && review.None?)
            && (e.blocking != []
                <==> Texts(Get(review, "blockingReasons")) != [] || r.status == Some(FailedStatus) || r.status == Some(Aborted)
                     || (r.fallbackSource && review.None?) || unbacked || argued || (t.required && e.verdict != APPROVED))
            && e.effective == (if e.blocking != [] && (t.required || e.verdict == APPROVED) then CHANGES_REQUESTED else e.verdict)
  {
    ReviewIsTheObject(r);
    RuntimeIsScope(t);
    hide Review, ReviewObject, BaseVerdict, Texts, RuntimeScope, RuntimeMatter;
    var texts := Texts(Get(ReviewObject(r.details), "blockingReasons"));
    assert Stateds(texts) == [] <==> texts == [];
    hide Stateds;
  }

  /** The same result with other prose: another final text and another verdict read from it. */
  function WithProse(r: ReviewResult, verdict: Verdict, text: string): ReviewResult {
    r.(verdict := verdict, finalOutput := text)
  }

  lemma ProseLeavesTheReview(r: ReviewResult, verdict: Verdict, text: string)
    ensures CanonicallyApproved(WithProse(r, verdict, text)) == CanonicallyApproved(r)
  {
  }

  /** No prose approves a role that the canonical review does not. */
  lemma NoProseApproves(tests: TextTests, t: Target, r: ReviewResult, verdict: Verdict, text: string)
    requires t.required && !CanonicallyApproved(r)
    ensures !Clears(Evaluate(tests, t, WithProse(r, verdict, text)))
  {
    RequiredRoleClearsIff(tests, t, WithProse(r, verdict, text));
    ProseLeavesTheReview(r, verdict, text);
    hide Evaluate, CanonicallyApproved, Clears;
  }

  /**
   * Prose can turn a role that does not clear into one that does in exactly one way: the canonical review
   * approves, and the text drops a prompt-only argument about a runtime matter.
   */
  lemma ProseFlipsIff(tests: TextTests, t: Target, r: ReviewResult, verdict: Verdict, text: string)
    requires t.required && !Clears(Evaluate(tests, t, r))
    ensures Clears(Evaluate(tests, t, WithProse(r, verdict, text)))
            <==> CanonicallyApproved(r) && RuntimeMatter(t) && tests.promptOnly(t.criteria, r.finalOutput) && !tests.promptOnly(t.criteria, text)
  {
    RequiredRoleClearsIff(tests, t, r);
    RequiredRoleClearsIff(tests, t, WithProse(r, verdict, text));
    ProseLeavesTheReview(r, verdict, text);
    hide Evaluate, CanonicallyApproved, Clears, RuntimeMatter;
  }

  /** The review read is the one on the envelopes: fields beside them do not matter. */
  lemma OnlyEnvelopesAreReviewed(r: ReviewResult, s: ReviewResult)
    requires Get(r.details, "evidence") == Get(s.details, "evidence")
    requires Get(Get(r.details, "done"), "evidence") == Get(Get(s.details, "done"), "evidence")
    requires r.status == s.status
    ensures CanonicallyApproved(r) == CanonicallyApproved(s)
  {
    hide TypedOn, SaysApproved, Texts;
  }

  // ---------- Required roles ----------

  lemma {:induction false} AddRolesMembers(list: seq<Role>, more: seq<Role>)
    ensures forall r :: r in AddRoles(list, more) <==> r in list || r in more
    ensures Unique(list) ==> Unique(AddRoles(list, more))
  {
    if more != [] {
      AddRolesMembers(list, more[..|more| - 1]);
      assert more == more[..|more| - 1] + [more[|more| - 1]];
    }
  }

  predicate Unique(roles: seq<Role>) {
    forall i, j :: 0 <= i < j < |roles| ==> roles[i] != roles[j]
  }

  predicate Asks(matrix: seq<Entry>, r: Role) {
    exists i :: 0 <= i < |matrix| && r in matrix[i].roles
  }

  lemma AsksOneMore(matrix: seq<Entry>, r: Role)
    requires matrix != []
    ensures Asks(matrix, r) <==> Asks(matrix[..|matrix| - 1], r) || r in matrix[|matrix| - 1].roles
  {
    var n := |matrix| - 1;
    if Asks(matrix[..n], r) {
      var i :| 0 <= i < n && r in matrix[..n][i].roles;
      assert r in matrix[i].roles;
    }
    if r in matrix[n].roles {
      assert Asks(matrix, r);
    }
    if Asks(matrix, r) {
      var i :| 0 <= i < |matrix| && r in matrix[i].roles;
      assert i < n ==> r in matrix[..n][i].roles;
    }
  }

  lemma {:induction false} MatrixRolesMembers(matrix: seq<Entry>, r: Role)
    ensures r in MatrixRoles(matrix) <==> Asks(matrix, r)
    ensures Unique(MatrixRoles(matrix))
  {
    if matrix != [] {
      var n := |matrix| - 1;
      MatrixRolesMembers(matrix[..n], r);
      AddRolesMembers(MatrixRoles(matrix[..n]), matrix[n].roles);
      AsksOneMore(matrix, r);
      hide AddRoles, Asks;
    }
  }

  /** Documentation or configuration is at hand: asked for, named in a file or criterion, or the kind of some row. */
  predicate DocsAreHinted(tests: TextTests, matrix: seq<Entry>, o: Options) {
    || o.includeDocs
    || (exists i :: 0 <= i < |o.files| && tests.docsHint(o.files[i]))
    || (exists i :: 0 <= i < |o.criteria| && tests.docsHint(o.criteria[i]))
    || (exists i :: 0 <= i < |matrix| && matrix[i].kind in {Documentation, Configuration})
  }

  lemma DocsAreInScope(tests: TextTests, matrix: seq<Entry>, o: Options)
    ensures DocsInScope(tests, matrix, o) <==> DocsAreHinted(tests, matrix, o) || Asks(matrix, DocsConfig)
  {
  }

  /**
   * The required roles, each once: those the matrix asks for, docs/config when in scope, and the default set for a plan with a
   * matrix (or when the caller gives a default set). No goal enters into it.
   */
  lemma RequiredRolesIff(tests: TextTests, matrix: seq<Entry>, o: Options, r: Role)
    ensures Unique(RequiredRoles(tests, matrix, o))
    ensures r in RequiredRoles(tests, matrix, o)
            <==> Asks(matrix, r) || (r.DocsConfig? && DocsAreHinted(tests, matrix, o))
                 || (if o.defaults.Some? then r in o.defaults.value else matrix != [] && !r.DocsConfig?)
  {
    DocsAreInScope(tests, matrix, o);
    assert r in DEFAULT_ROLES <==> !r.DocsConfig?;
    MatrixRolesMembers(matrix, r);
    var docs := if DocsInScope(tests, matrix, o) then [DocsConfig] else [];
    var own := AddRoles(MatrixRoles(matrix), docs);
    AddRolesMembers(MatrixRoles(matrix), docs);
    AddRolesMembers(own, if o.defaults.Some? then o.defaults.value else DEFAULT_ROLES);
    hide AddRoles, MatrixRoles, Asks, DocsInScope, DocsAreHinted, DEFAULT_ROLES;
  }

  lemma {:induction false} RoleCriteriaAreItsRows(matrix: seq<Entry>, role: Role, c: string)
    ensures c in RoleCriteria(matrix, role) <==> exists i :: 0 <= i < |matrix| && role in matrix[i].roles && matrix[i].criterion == c
  {
    if matrix != [] {
      var n := |matrix| - 1;
      RoleCriteriaAreItsRows(matrix[..n], role, c);
      if i :| 0 <= i < n && role in matrix[i].roles && matrix[i].criterion == c {
        assert matrix[..n][i] == matrix[i];
      }
    }
  }

  /** A required role is judged on the criteria of the rows that name it, and where none does on the first five of the plan. */
  lemma TargetsAreTheirRows(matrix: seq<Entry>, o: Options, role: Role)
    ensures var t := TargetFor(matrix, o, role);
            && t.role == role && t.required
            && (if Asks(matrix, role)
                then forall c :: c in t.criteria <==> exists i :: 0 <= i < |matrix| && role in matrix[i].roles && matrix[i].criterion == c
                else t.criteria == o.criteria[..if |o.criteria| < 5 then |o.criteria| else 5])
  {
    forall c
      ensures c in RoleCriteria(matrix, role) <==> exists i :: 0 <= i < |matrix| && role in matrix[i].roles && matrix[i].criterion == c
    {
      RoleCriteriaAreItsRows(matrix, role, c);
    }
    hide RoleCriteria;
    var own := RoleCriteria(matrix, role);
    assert own != [] ==> own[0] in own;
    if Asks(matrix, role) {
      var i :| 0 <= i < |matrix| && role in matrix[i].roles;
      assert matrix[i].criterion in own;
    }
  }

  // ---------- The memo ----------

  /**
   * End to end: the memo is approved exactly when for each required role, in order, there is a result whose canonical
   * review approves and whose text, in runtime scope, makes no prompt-only argument.
   */
  lemma MemoIsApprovedIff(tests: TextTests, matrix: seq<Entry>, results: seq<ReviewResult>, o: Options)
    ensures MemoApproved(tests, matrix, results, o)
            <==> forall i :: 0 <= i < |RequiredRoles(tests, matrix, o)| ==> RoleApproved(tests, matrix, results, o, i)
  {
    forall i | 0 <= i < |RequiredRoles(tests, matrix, o)|
      ensures Clears(EvaluationFor(tests, matrix, results, o, i)) == RoleApproved(tests, matrix, results, o, i)
    {
      RoleClearsIff(tests, matrix, results, o, i);
    }
    hide RequiredRoles, RoleApproved, EvaluationFor, Clears;
  }

  ghost predicate RoleApproved(tests: TextTests, matrix: seq<Entry>, results: seq<ReviewResult>, o: Options, i: nat)
    requires i < |RequiredRoles(tests, matrix, o)|
  {
    var t := TargetFor(matrix, o, RequiredRoles(tests, matrix, o)[i]);
    i < |results| && CanonicallyApproved(results[i]) && !(RuntimeMatter(t) && tests.promptOnly(t.criteria, results[i].finalOutput))
  }

  lemma RoleClearsIff(tests: TextTests, matrix: seq<Entry>, results: seq<ReviewResult>, o: Options, i: nat)
    requires i < |RequiredRoles(tests, matrix, o)|
    ensures Clears(EvaluationFor(tests, matrix, results, o, i)) == RoleApproved(tests, matrix, results, o, i)
  {
    var t := TargetFor(matrix, o, RequiredRoles(tests, matrix, o)[i]);
    var r := if i < |results| then results[i] else NO_RESULT;
    RequiredRoleClearsIff(tests, t, r);
    NoResultFails();
    hide RequiredRoles, Evaluate, Clears, RuntimeMatter, CanonicallyApproved, RoleCriteria;
  }

  lemma NoResultFails()
    ensures !CanonicallyApproved(NO_RESULT)
  {
    hide ReviewObject, SaysApproved, Texts;
  }

  /**
   * When no role is required, and so the memo is approved with no review at all: no row asks for one, docs/config is out of scope, and the
   * caller's default set is empty or, without one, the matrix is.
   */
  lemma NoRolesNoReview(tests: TextTests, matrix: seq<Entry>, o: Options, results: seq<ReviewResult>)
    ensures RequiredRoles(tests, matrix, o) == []
            <==> (forall r :: !Asks(matrix, r)) && !DocsAreHinted(tests, matrix, o)
                 && (if o.defaults.Some? then o.defaults.value == [] else matrix == [])
    ensures RequiredRoles(tests, matrix, o) == [] ==> MemoApproved(tests, matrix, results, o)
  {
    var roles := RequiredRoles(tests, matrix, o);
    forall r
      ensures r in roles
              <==> Asks(matrix, r) || (r.DocsConfig? && DocsAreHinted(tests, matrix, o))
                   || (if o.defaults.Some? then r in o.defaults.value else matrix != [] && !r.DocsConfig?)
    {
      RequiredRolesIff(tests, matrix, o, r);
    }
    assert o.defaults.Some? && o.defaults.value != [] ==> o.defaults.value[0] in o.defaults.value;
    hide RequiredRoles, DocsAreHinted, Asks, EvaluationFor;
    if roles == [] {
      assert DocsConfig !in roles && Behavior !in roles;
    } else {
      assert roles[0] in roles;
    }
  }

  /** The caller's goals change neither the roles asked for nor the verdict. */
  lemma GoalsDoNotMatter(tests: TextTests, matrix: seq<Entry>, results: seq<ReviewResult>, o: Options, goals: seq<string>)
    ensures RequiredRoles(tests, matrix, o.(goals := goals)) == RequiredRoles(tests, matrix, o)
    ensures MemoApproved(tests, matrix, results, o.(goals := goals)) == MemoApproved(tests, matrix, results, o)
  {
    var q := o.(goals := goals);
    assert RequiredRoles(tests, matrix, q) == RequiredRoles(tests, matrix, o) by {
      hide AddRoles, MatrixRoles;
    }
    forall i | 0 <= i < |RequiredRoles(tests, matrix, o)|
      ensures EvaluationFor(tests, matrix, results, q, i) == EvaluationFor(tests, matrix, results, o, i)
    {
      hide RequiredRoles, Evaluate, RoleCriteria;
    }
    hide RequiredRoles, EvaluationFor, Clears;
  }

  /** Every evaluation is under exactly one verdict; in an approved memo all are approvals and none is provisional. */
  lemma VerdictsPartition(evaluations: seq<Evaluation>, required: seq<Role>, memo: Memo)
    requires IsMemo(memo, evaluations, required)
    ensures multiset(memo.approvals) + multiset(memo.changesRequested) + multiset(memo.unknown) == multiset(evaluations)
    ensures memo.approved ==> memo.approvals == evaluations && memo.changesRequested == [] && memo.unknown == [] && memo.provisional == []
  {
    forall e
      ensures multiset(memo.approvals)[e] + multiset(memo.changesRequested)[e] + multiset(memo.unknown)[e] == multiset(evaluations)[e]
    {
      SelectCounts(evaluations, Approvals, e);
      SelectCounts(evaluations, Changes, e);
      SelectCounts(evaluations, Unknowns, e);
      hide Select;
    }
    if memo.approved {
      AllClearAreApprovals(evaluations);
    }
    hide Select, Clears, Evaluated;
  }

  lemma {:induction false} AllClearAreApprovals(evaluations: seq<Evaluation>)
    requires forall i :: 0 <= i < |evaluations| ==> Clears(evaluations[i])
    ensures Select(evaluations, Approvals) == evaluations
    ensures Select(evaluations, Changes) == [] && Select(evaluations, Unknowns) == [] && Select(evaluations, ProvisionalOnes) == []
  {
    if evaluations != [] {
      var n := |evaluations| - 1;
      AllClearAreApprovals(evaluations[..n]);
      assert Clears(evaluations[n]);
      assert evaluations == evaluations[..n] + [evaluations[n]];
    }
  }

  /** Two consolidations of the same evaluations in another order give the same verdict, the same missing roles and the same lists up to order. */
  lemma OrderDoesNotMatter(a: seq<Evaluation>, b: seq<Evaluation>, required: seq<Role>, x: Memo, y: Memo)
    requires multiset(a) == multiset(b) && IsMemo(x, a, required) && IsMemo(y, b, required)
    ensures x.approved == y.approved
    ensures forall role :: role in x.missing <==> role in y.missing
    ensures multiset(x.approvals) == multiset(y.approvals) && multiset(x.changesRequested) == multiset(y.changesRequested)
    ensures multiset(x.unknown) == multiset(y.unknown) && multiset(x.weak) == multiset(y.weak)
    ensures multiset(x.promptCaveats) == multiset(y.promptCaveats) && multiset(x.risks) == multiset(y.risks)
    ensures multiset(x.provisional) == multiset(y.provisional)
  {
    forall role
      ensures Evaluated(a, role) == Evaluated(b, role)
      ensures (forall i :: 0 <= i < |a| ==> Clears(a[i])) == (forall i :: 0 <= i < |b| ==> Clears(b[i]))
    {
      SomeTransfer(a, b, role);
      SomeTransfer(b, a, role);
    }
    SomeTransfer(a, b, Behavior);
    SomeTransfer(b, a, Behavior);
    SelectOfPermuted(a, b, Approvals);
    SelectOfPermuted(a, b, Changes);
    SelectOfPermuted(a, b, Unknowns);
    SelectOfPermuted(a, b, WeakOnes);
    SelectOfPermuted(a, b, CaveatOnes);
    SelectOfPermuted(a, b, RiskyOnes);
    SelectOfPermuted(a, b, ProvisionalOnes);
    hide Clears, Evaluated, Select;
  }

  lemma {:induction false} SelectCounts(evaluations: seq<Evaluation>, bucket: Bucket, e: Evaluation)
    ensures multiset(Select(evaluations, bucket))[e] == if Belongs(e, bucket) then multiset(evaluations)[e] else 0
  {
    hide Belongs;
    if evaluations != [] {
      var n := |evaluations| - 1;
      SelectCounts(evaluations[..n], bucket, e);
      assert evaluations == evaluations[..n] + [evaluations[n]];
    }
  }

  lemma SelectOfPermuted(a: seq<Evaluation>, b: seq<Evaluation>, bucket: Bucket)
    requires multiset(a) == multiset(b)
    ensures multiset(Select(a, bucket)) == multiset(Select(b, bucket))
  {
    forall e
      ensures multiset(Select(a, bucket))[e] == multiset(Select(b, bucket))[e]
    {
      SelectCounts(a, bucket, e);
      SelectCounts(b, bucket, e);
    }
    hide Select, Belongs;
  }

  lemma SomeTransfer(a: seq<Evaluation>, b: seq<Evaluation>, role: Role)
    requires multiset(a) == multiset(b)
    ensures (forall i :: 0 <= i < |a| ==> Clears(a[i])) ==> (forall i :: 0 <= i < |b| ==> Clears(b[i]))
    ensures Evaluated(a, role) ==> Evaluated(b, role)
  {
    hide Clears;
    forall i | 0 <= i < |b| && forall j :: 0 <= j < |a| ==> Clears(a[j])
      ensures Clears(b[i])
    {
      assert b[i] in multiset(a);
    }
    if Evaluated(a, role) {
      var i :| 0 <= i < |a| && a[i].role == role;
      assert a[i] in multiset(b);
      var j :| 0 <= j < |b| && b[j] == a[i];
      assert b[j].role == role;
    }
  }
}
