/**
 The schema that constrains a model's plan to an intent, and its agreement with the authority
 checks that are run on the plan afterwards.
 */
module OutputSchema {
  import opened Wrappers
  import opened EditSchema
  import opened Ordering
  import opened PortablePath
  import opened Intent
  import opened IntentTargets
  import opened IntentBinding
  import opened PlanAuthority

  const EDIT_PLAN_SCHEMA_VERSION := 1
  const PROPOSAL_TTL_MILLIS := 24 * 60 * 60 * 1000

  datatype PlanExpectations = PlanExpectations(
    requestId: string,
    planId: string,
    workspaceId: string,
    workspaceRootHash: string,
    profile: string,
    provider: string,
    model: string,
    baseHead: string,
    workingTreeDigest: string,
    now: nat,
    limits: EditPlanLimits)

  datatype TrustedFile = TrustedFile(path: string, contentHash: string, bytes: nat, lineEnding: LineEnding)

  /** The constrained properties of one alternative under `oneOf`. */
  datatype OperationSchema =
    | ModifySchema(path: string, expectedFileHash: string, lineEnding: LineEnding)
    | CreateSchema(path: string, extension: string)
    | AnyCreateSchema

  /** The `const` properties of the plan, and the alternatives for its operations. */
  datatype PlanSchema = PlanSchema(
    schemaVersion: nat,
    planId: string,
    requestId: string,
    workspaceId: string,
    workspaceRootHash: string,
    profile: string,
    provider: string,
    model: string,
    baseHead: string,
    workingTreeDigest: string,
    limits: EditPlanLimits,
    expiresAt: nat,
    operations: seq<OperationSchema>)

  // ---- Conformance ----

  predicate Matches(op: EditOperation, s: OperationSchema) {
    match (op, s)
    case (Modify(path, hash, ending, _, _, _), ModifySchema(path', hash', ending')) =>
      path == path' && hash == hash' && ending == ending'
    case (Create(path, extension, _, _, absent, _), CreateSchema(path', extension')) =>
      path == path' && extension == extension' && absent
    case (Create(_, extension, _, _, absent, _), AnyCreateSchema) =>
      extension in ALLOWED_EDIT_EXTENSIONS && absent
    case _ => false
  }

  /** `oneOf`: exactly one alternative matches. */
  ghost predicate OneOf(op: EditOperation, alternatives: seq<OperationSchema>) {
    exists i :: 0 <= i < |alternatives| && Matches(op, alternatives[i])
                && forall j :: 0 <= j < |alternatives| && j != i ==> !Matches(op, alternatives[j])
  }

  ghost predicate Conforms(plan: EditPlan, s: PlanSchema) {
    && plan.schemaVersion == s.schemaVersion && plan.planId == s.planId && plan.requestId == s.requestId
    && plan.workspaceId == s.workspaceId && plan.workspaceRootHash == s.workspaceRootHash
    && plan.profile == s.profile && plan.provider == s.provider && plan.model == s.model
    && plan.baseHead == s.baseHead && plan.workingTreeDigest == s.workingTreeDigest
    && plan.limits == s.limits && plan.expiresAt == s.expiresAt
    && forall op :: op in plan.operations ==> OneOf(op, s.operations)
  }

  // ---- Building the schema ----

  function BaseSchema(expected: PlanExpectations, trusted: seq<TrustedFile>): PlanSchema {
    PlanSchema(
      EDIT_PLAN_SCHEMA_VERSION, expected.planId, expected.requestId, expected.workspaceId, expected.workspaceRootHash,
      expected.profile, expected.provider, expected.model, expected.baseHead, expected.workingTreeDigest,
      expected.limits, SaturatingAdd(expected.now, PROPOSAL_TTL_MILLIS),
      Map((file: TrustedFile) => ModifySchema(file.path, file.contentHash, file.lineEnding), trusted)
      + [AnyCreateSchema])
  }

  function FindTrusted(trusted: seq<TrustedFile>, path: string): Option<TrustedFile> {
    if trusted == [] then None
    else if trusted[0].path == path then Some(trusted[0])
    else FindTrusted(trusted[1..], path)
  }

  /** The alternative for one target, if the target is backed by what the schema needs. */
  function AlternativeFor(t: Target, operations: set<OperationKind>,
                          trusted: seq<TrustedFile>): Option<OperationSchema> {
    match t
    case ExistingFile(path, hash, _, _) =>
      if ModifyExisting !in operations then None
      else
        (match FindTrusted(trusted, path)
         case None => None
         case Some(file) => if file.contentHash != hash then None
                            else Some(ModifySchema(file.path, file.contentHash, file.lineEnding)))
    case ProspectiveFile(path, extension, _, _) =>
      if CreateTextFile !in operations then None else Some(CreateSchema(path, extension))
  }

  predicate BoundTo(expected: PlanExpectations, i: EditIntent) {
    && expected.requestId == i.requestId && expected.workspaceId == i.workspaceId
    && expected.workspaceRootHash == i.workspaceRootHash && expected.baseHead == i.baseHead
    && expected.workingTreeDigest == i.workingTreeDigest
  }

  ghost predicate SchemaDefined(expected: PlanExpectations, trusted: seq<TrustedFile>, v: ValidatedIntent,
                                codec: Codec) {
    && BindingOk(FromValidated(v, codec), codec) && BoundTo(expected, v.intent)
    && v.intent.targets != []
    && forall t :: t in v.intent.targets ==>
      AlternativeFor(t, SetOf(v.intent.constraints.allowedOperations), trusted).Some?
  }

  /** The schema with its alternatives and limits replaced by the intent's. */
  ghost predicate SchemaFor(s: PlanSchema, expected: PlanExpectations, trusted: seq<TrustedFile>, v: ValidatedIntent) {
    && s == BaseSchema(expected, trusted).(operations := s.operations, limits := v.intent.constraints.limits)
    && |s.operations| == |v.intent.targets|
    && forall i :: 0 <= i < |s.operations| ==>
      AlternativeFor(v.intent.targets[i], SetOf(v.intent.constraints.allowedOperations), trusted)
      == Some(s.operations[i])
  }

  method EditPlanOutputSchemaForIntent(expected: PlanExpectations, trusted: seq<TrustedFile>, v: ValidatedIntent,
                                       codec: Codec)
      returns (r: Result<PlanSchema, string>)
    ensures r.Ok? <==> SchemaDefined(expected, trusted, v, codec)
    ensures r.Ok? ==> SchemaFor(r.value, expected, trusted, v)
  {
    hide BindingOk, SetOf, FindTrusted;
    var bound := ValidateBinding(FromValidated(v, codec), codec);
    if bound.Err? {
      return Err(bound.error);
    }
    if !BoundTo(expected, v.intent) {
      return Err("validated edit intent is not bound to the generation expectations");
    }
    var targets, operations := v.intent.targets, SetOf(v.intent.constraints.allowedOperations);
    var variants: seq<OperationSchema> := [];
    for i := 0 to |targets|
      invariant |variants| == i
      invariant forall k :: 0 <= k < i ==> AlternativeFor(targets[k], operations, trusted) == Some(variants[k])
    {
      var target := targets[i];
      assert target in v.intent.targets;
      match target {
        case ExistingFile(path, hash, _, _) =>
          if ModifyExisting !in operations {
            return Err("existing target without modify permission");
          }
          var file := FindTrusted(trusted, path);
          if file.None? {
            return Err("target has no trusted file snapshot");
          }
          if file.value.contentHash != hash {
            return Err("target does not match its trusted file hash");
          }
          variants := variants + [ModifySchema(file.value.path, file.value.contentHash, file.value.lineEnding)];
        case ProspectiveFile(path, extension, _, _) =>
          if CreateTextFile !in operations {
            return Err("prospective target without create permission");
          }
          variants := variants + [CreateSchema(path, extension)];
      }
    }
    if variants == [] {
      return Err("validated edit intent exposes no generation operation");
    }
    return Ok(BaseSchema(expected, trusted).(operations := variants, limits := v.intent.constraints.limits));
  }

  // ---- Agreement with the authority ----

  /** The plan's constants, apart from its operations, are those the runtime expects. */
  ghost predicate ConstantsOk(plan: EditPlan, expected: PlanExpectations, limits: EditPlanLimits) {
    && plan.schemaVersion == EDIT_PLAN_SCHEMA_VERSION && plan.planId == expected.planId
    && plan.profile == expected.profile && plan.provider == expected.provider && plan.model == expected.model
    && plan.limits == limits && plan.expiresAt == SaturatingAdd(expected.now, PROPOSAL_TTL_MILLIS)
  }

  /** A modification declares the line ending the runtime read from the file. */
  ghost predicate EndingsTrusted(op: EditOperation, trusted: seq<TrustedFile>) {
    op.Modify?
    ==> FindTrusted(trusted, op.path).Some? && FindTrusted(trusted, op.path).value.lineEnding == op.lineEnding
  }

  lemma {:induction false} FoundHasPath(trusted: seq<TrustedFile>, path: string)
    ensures FindTrusted(trusted, path).Some? ==> FindTrusted(trusted, path).value.path == path
  {
    if trusted != [] && trusted[0].path != path {
      FoundHasPath(trusted[1..], path);
    }
  }

  /** An alternative matches exactly the operations its target authorises, with the right line ending. */
  lemma AlternativeMatches(op: EditOperation, t: Target, operations: set<OperationKind>, trusted: seq<TrustedFile>)
    requires AlternativeFor(t, operations, trusted).Some?
    ensures Matches(op, AlternativeFor(t, operations, trusted).value)
      <==> op.path == t.path && OperationFits(op, t, operations) && EndingsTrusted(op, trusted)
  {
    FoundHasPath(trusted, t.path);
  }

  /** The target of the operation's path authorises it. */
  ghost predicate SomeTargetFits(op: EditOperation, targets: seq<Target>, operations: set<OperationKind>) {
    exists i :: 0 <= i < |targets| && targets[i].path == op.path && OperationFits(op, targets[i], operations)
  }

  lemma OperationByTarget(op: EditOperation, targets: seq<Target>, operations: set<OperationKind>)
    requires NoDuplicates(Paths(targets)) && forall t :: t in targets ==> PathOk(t.path)
    ensures OperationOk(op, TargetMap(targets), operations) <==> SomeTargetFits(op, targets, operations)
  {
    hide OperationFits, TargetMap, PathOk, NoDuplicates, Paths;
    TargetMapHolds(targets);
    if OperationOk(op, TargetMap(targets), operations) {
      var t := TargetMap(targets)[op.path];
      var i :| 0 <= i < |targets| && targets[i] == t;
    }
    if i :| 0 <= i < |targets| && targets[i].path == op.path && OperationFits(op, targets[i], operations) {
      assert targets[i] in targets;
    }
  }

  lemma OneAlternative(op: EditOperation, targets: seq<Target>, alternatives: seq<OperationSchema>,
                       operations: set<OperationKind>, trusted: seq<TrustedFile>)
    requires NoDuplicates(Paths(targets)) && |alternatives| == |targets|
    requires forall i :: 0 <= i < |targets| ==> AlternativeFor(targets[i], operations, trusted) == Some(alternatives[i])
    ensures OneOf(op, alternatives) <==> SomeTargetFits(op, targets, operations) && EndingsTrusted(op, trusted)
  {
    hide Matches, OperationFits, EndingsTrusted, AlternativeFor;
    forall i | 0 <= i < |targets|
      ensures Matches(op, alternatives[i])
        <==> op.path == targets[i].path && OperationFits(op, targets[i], operations) && EndingsTrusted(op, trusted)
    {
      AlternativeMatches(op, targets[i], operations, trusted);
    }
    forall i, j | 0 <= i < |targets| && 0 <= j < |targets| && i != j ensures targets[i].path != targets[j].path {
      assert Paths(targets)[i] != Paths(targets)[j];
    }
  }

  /**
   The two layers agree: a plan conforms to the intent's schema exactly when it passes the authority's
   identity and operation checks, keeps the runtime's constants (the limits among them), and states
   trusted line endings; in particular its limits do not exceed the intent's.
   */
  lemma SchemaIffAuthority(plan: EditPlan, s: PlanSchema, expected: PlanExpectations, trusted: seq<TrustedFile>,
                           v: ValidatedIntent, codec: Codec)
    requires SchemaDefined(expected, trusted, v, codec) && SchemaFor(s, expected, trusted, v)
    ensures var a := AuthorityOfIntent(v.intent);
      Conforms(plan, s) <==>
      && IdentityMatches(plan, a) && OperationsOk(plan.operations, a)
      && ConstantsOk(plan, expected, v.intent.constraints.limits)
      && forall op :: op in plan.operations ==> EndingsTrusted(op, trusted)
    ensures Conforms(plan, s) ==> LimitsWithin(plan.limits, v.intent.constraints.limits)
  {
    hide OneOf, OperationOk, SomeTargetFits, EndingsTrusted, AlternativeFor, TargetMap, BindingOk, SetOf, Paths, PathOk,
         NoDuplicates;
    var i := v.intent;
    DistinctOkPaths(v, codec);
    forall op ensures OneOf(op, s.operations)
      <==> OperationOk(op, TargetMap(i.targets), SetOf(i.constraints.allowedOperations)) && EndingsTrusted(op, trusted)
    {
      OneAlternative(op, i.targets, s.operations, SetOf(i.constraints.allowedOperations), trusted);
      OperationByTarget(op, i.targets, SetOf(i.constraints.allowedOperations));
    }
  }

  lemma DistinctOkPaths(v: ValidatedIntent, codec: Codec)
    requires BindingOk(FromValidated(v, codec), codec)
    ensures NoDuplicates(Paths(v.intent.targets)) && forall t :: t in v.intent.targets ==> PathOk(t.path)
  {
    hide ConstraintsOk, PathOk, TargetBodyOk, StoredIdentityOk, LifetimeOk, NoDuplicates, Paths, SetOf;
  }
}
