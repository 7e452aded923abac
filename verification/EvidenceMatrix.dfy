/** The acceptance/evidence matrix: reading rows leniently from JSON, writing them, and validating a plan's coverage. */
module EvidenceMatrix {
  import opened Js
  import opened Json

  datatype CriterionKind = RuntimeBehavior | PlanningArtifact | Documentation | Configuration | TestInfrastructure | ManualProcess

  datatype Level = PromptOnly | ConfigDefault | RuntimeGate | BehaviorTestLevel | ManualValidationLevel | RegressionProof

  datatype RequiredKind =
    | Artifact | Diff | StaticCheck | UnitTest | BehaviorTest | RegressionTest | RuntimeGateTest | ManualValidation | ReviewerApproval

  datatype Role = Implementation | EvidenceTest | Behavior | Regression | Maintainability | DocsConfig

  datatype Item = Item(kind: RequiredKind, description: string, command: Option<string>)

  datatype Entry = Entry(
    criterion: string, kind: CriterionKind, risk: string, levels: seq<Level>, evidence: seq<Item>, roles: seq<Role>,
    blocking: seq<string>, caveat: Option<string>, manualPlan: Option<string>)

  datatype IssueCode = MissingField | InvalidValue

  /** What reading gave: a value or none, and the complaints on the way. */
  datatype Parsed<T> = Parsed(value: Option<T>, issues: seq<IssueCode>)

  // ---------- Names ----------

  function KindName(k: CriterionKind): string {
    match k
    case RuntimeBehavior => "runtime-behavior"
    case PlanningArtifact => "planning-artifact"
    case Documentation => "documentation"
    case Configuration => "configuration"
    case TestInfrastructure => "test-infrastructure"
    case ManualProcess => "manual-process"
  }

  function KindNamed(s: string): (k: Option<CriterionKind>)
    ensures k.Some? ==> KindName(k.value) == s
  {
    match s
    case "runtime-behavior" => Some(RuntimeBehavior)
    case "planning-artifact" => Some(PlanningArtifact)
    case "documentation" => Some(Documentation)
    case "configuration" => Some(Configuration)
    case "test-infrastructure" => Some(TestInfrastructure)
    case "manual-process" => Some(ManualProcess)
    case _ => None
  }

  function LevelName(l: Level): string {
    match l
    case PromptOnly => "prompt-only"
    case ConfigDefault => "config-default"
    case RuntimeGate => "runtime-gate"
    case BehaviorTestLevel => "behavior-test"
    case ManualValidationLevel => "manual-validation"
    case RegressionProof => "regression-proof"
  }

  function LevelNamed(s: string): (l: Option<Level>)
    ensures l.Some? ==> LevelName(l.value) == s
  {
    match s
    case "prompt-only" => Some(PromptOnly)
    case "config-default" => Some(ConfigDefault)
    case "runtime-gate" => Some(RuntimeGate)
    case "behavior-test" => Some(BehaviorTestLevel)
    case "manual-validation" => Some(ManualValidationLevel)
    case "regression-proof" => Some(RegressionProof)
    case _ => None
  }

  function RequiredName(k: RequiredKind): string {
    match k
    case Artifact => "artifact"
    case Diff => "diff"
    case StaticCheck => "static-check"
    case UnitTest => "unit-test"
    case BehaviorTest => "behavior-test"
    case RegressionTest => "regression-test"
    case RuntimeGateTest => "runtime-gate-test"
    case ManualValidation => "manual-validation"
    case ReviewerApproval => "reviewer-approval"
  }

  function RequiredNamed(s: string): (k: Option<RequiredKind>)
    ensures k.Some? ==> RequiredName(k.value) == s
  {
    match s
    case "artifact" => Some(Artifact)
    case "diff" => Some(Diff)
    case "static-check" => Some(StaticCheck)
    case "unit-test" => Some(UnitTest)
    case "behavior-test" => Some(BehaviorTest)
    case "regression-test" => Some(RegressionTest)
    case "runtime-gate-test" => Some(RuntimeGateTest)
    case "manual-validation" => Some(ManualValidation)
    case "reviewer-approval" => Some(ReviewerApproval)
    case _ => None
  }

  function RoleName(r: Role): string {
    match r
    case Implementation => "implementation"
    case EvidenceTest => "evidence-test"
    case Behavior => "behavior"
    case Regression => "regression"
    case Maintainability => "maintainability"
    case DocsConfig => "docs-config"
  }

  function RoleNamed(s: string): (r: Option<Role>)
    ensures r.Some? ==> RoleName(r.value) == s
  {
    match s
    case "implementation" => Some(Implementation)
    case "evidence-test" => Some(EvidenceTest)
    case "behavior" => Some(Behavior)
    case "regression" => Some(Regression)
    case "maintainability" => Some(Maintainability)
    case "docs-config" => Some(DocsConfig)
    case _ => None
  }

  // ---------- Reading ----------

  function OptionalText(j: Option<Json>): Option<string> {
    if Text(j) == "" then None else Some(Text(j))
  }

  function ReadItem(j: Json): Parsed<Item> {
    var kind := Text(Get(Some(j), "kind"));
    var description := Text(Get(Some(j), "description"));
    if !j.Obj? || kind == "" then Parsed(None, [MissingField])
    else if RequiredNamed(kind).None? then Parsed(None, [InvalidValue])
    else if description == "" then Parsed(None, [MissingField])
    else Parsed(Some(Item(RequiredNamed(kind).value, description, OptionalText(Get(Some(j), "command")))), [])
  }

  function ReadItems(items: seq<Json>): (seq<Item>, seq<IssueCode>) {
    if items == [] then ([], [])
    else
      var (values, issues) := ReadItems(items[..|items| - 1]);
      var last := ReadItem(items[|items| - 1]);
      (values + (if last.value.Some? then [last.value.value] else []), issues + last.issues)
  }

  /** All the texts as levels, or none if one of them is unknown. */
  function ReadLevels(texts: seq<string>): Option<seq<Level>> {
    if texts == [] then Some([])
    else
      var front, last := ReadLevels(texts[..|texts| - 1]), LevelNamed(texts[|texts| - 1]);
      if front.Some? && last.Some? then Some(front.value + [last.value]) else None
  }

  function ReadRoles(texts: seq<string>): Option<seq<Role>> {
    if texts == [] then Some([])
    else
      var front, last := ReadRoles(texts[..|texts| - 1]), RoleNamed(texts[|texts| - 1]);
      if front.Some? && last.Some? then Some(front.value + [last.value]) else None
  }

  function Field(j: Json, key: string): Option<Json> {
    Get(Some(j), key)
  }

  function ReadEntry(j: Json): Parsed<Entry> {
    var criterion, kind := Text(Field(j, "criterion")), Text(Field(j, "criterionKind"));
    var risk, levels := Text(Field(j, "businessRiskIfWrong")), Texts(Field(j, "enforcementLevel"));
    if !j.Obj? || criterion == "" || kind == "" then Parsed(None, [MissingField])
    else if KindNamed(kind).None? then Parsed(None, [InvalidValue])
    else if risk == "" || levels == [] then Parsed(None, [MissingField])
    else if ReadLevels(levels).None? then Parsed(None, [InvalidValue])
    else ReadEntryTail(j, criterion, KindNamed(kind).value, risk, ReadLevels(levels).value)
  }

  function ReadEntryTail(j: Json, criterion: string, kind: CriterionKind, risk: string, levels: seq<Level>): Parsed<Entry> {
    var evidence := Field(j, "requiredEvidence");
    var (items, issues) := ReadItems(Items(evidence));
    var roles, blocking := Texts(Field(j, "reviewerRoles")), Texts(Field(j, "blockingConditions"));
    if evidence.None? || !evidence.value.Arr? then Parsed(None, [MissingField])
    else if items == [] || roles == [] then Parsed(None, issues + [MissingField])
    else if ReadRoles(roles).None? then Parsed(None, issues + [InvalidValue])
    else if blocking == [] then Parsed(None, issues + [MissingField])
    else
      Parsed(Some(Entry(criterion, kind, risk, levels, items, ReadRoles(roles).value, blocking,
                        OptionalText(Field(j, "promptOnlyCaveat")), OptionalText(Field(j, "manualValidationPlan")))), issues)
  }

  function ReadEntries(items: seq<Json>): (seq<Entry>, seq<IssueCode>) {
    if items == [] then ([], [])
    else
      var (values, issues) := ReadEntries(items[..|items| - 1]);
      var last := ReadEntry(items[|items| - 1]);
      (values + (if last.value.Some? then [last.value.value] else []), issues + last.issues)
  }

  function ReadMatrix(j: Option<Json>): (seq<Entry>, seq<IssueCode>) {
    if j.None? || j.value.Null? then ([], [])
    else if !j.value.Arr? then ([], [InvalidValue])
    else ReadEntries(j.value.items)
  }

  // ---------- Writing ----------

  function WithText(fields: map<string, Json>, key: string, text: Option<string>): map<string, Json> {
    if text.Some? then fields[key := Str(text.value)] else fields
  }

  function WriteItem(i: Item): Json {
    Obj(WithText(map["kind" := Str(RequiredName(i.kind)), "description" := Str(i.description)], "command", i.command))
  }

  function WriteItems(items: seq<Item>): seq<Json> {
    seq(|items|, n requires 0 <= n < |items| => WriteItem(items[n]))
  }

  function LevelNames(levels: seq<Level>): seq<string> {
    seq(|levels|, n requires 0 <= n < |levels| => LevelName(levels[n]))
  }

  function RoleNames(roles: seq<Role>): seq<string> {
    seq(|roles|, n requires 0 <= n < |roles| => RoleName(roles[n]))
  }

  function WriteEntry(e: Entry): Json {
    var fields := map[
      "criterion" := Str(e.criterion), "criterionKind" := Str(KindName(e.kind)), "businessRiskIfWrong" := Str(e.risk),
      "enforcementLevel" := StrArray(LevelNames(e.levels)), "requiredEvidence" := Arr(WriteItems(e.evidence)),
      "reviewerRoles" := StrArray(RoleNames(e.roles)), "blockingConditions" := StrArray(e.blocking)];
    Obj(WithText(WithText(fields, "promptOnlyCaveat", e.caveat), "manualValidationPlan", e.manualPlan))
  }

  function WriteMatrix(entries: seq<Entry>): Json {
    Arr(seq(|entries|, n requires 0 <= n < |entries| => WriteEntry(entries[n])))
  }

  // ---------- Well-formed rows ----------

  predicate CleanOption(t: Option<string>) {
    t.Some? ==> Clean(t.value)
  }

  predicate GoodItem(i: Item) {
    Clean(i.description) && CleanOption(i.command)
  }

  predicate GoodEntry(e: Entry) {
    && Clean(e.criterion) && Clean(e.risk) && e.levels != [] && e.evidence != [] && e.roles != [] && e.blocking != []
    && (forall n :: 0 <= n < |e.evidence| ==> GoodItem(e.evidence[n]))
    && (forall n :: 0 <= n < |e.blocking| ==> Clean(e.blocking[n]))
    && CleanOption(e.caveat) && CleanOption(e.manualPlan)
  }
}
