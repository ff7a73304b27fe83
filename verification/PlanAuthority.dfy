/** Accepting a plan against what an intent, or the binding stored for it, authorises. */
module PlanAuthority {
  import opened Wrappers
  import opened EditSchema
  import opened Ordering
  import opened PortablePath
  import opened Intent
  import opened IntentTargets
  import opened IntentBinding

  datatype Authority = Authority(
    requestId: string,
    workspaceId: string,
    workspaceRootHash: string,
    baseHead: string,
    workingTreeDigest: string,
    targets: seq<Target>,
    constraints: Constraints)

  function AuthorityOfIntent(i: EditIntent): Authority {
    Authority(i.requestId, i.workspaceId, i.workspaceRootHash, i.baseHead, i.workingTreeDigest, i.targets,
              i.constraints)
  }

  function AuthorityOfBinding(b: Binding): Authority {
    var p := b.payload;
    Authority(p.requestId, p.workspaceId, p.workspaceRootHash, p.baseHead, p.workingTreeDigest, p.targets,
              p.constraints)
  }

  predicate IdentityMatches(plan: EditPlan, a: Authority) {
    && plan.requestId == a.requestId && plan.workspaceId == a.workspaceId
    && plan.workspaceRootHash == a.workspaceRootHash && plan.baseHead == a.baseHead
    && plan.workingTreeDigest == a.workingTreeDigest
  }

  /** `targets.iter().map(..).collect::<BTreeMap<_, _>>()`: the last target with a path wins. */
  function TargetMap(targets: seq<Target>): map<string, Target> {
    if targets == [] then map[]
    else
      var last := targets[|targets| - 1];
      TargetMap(targets[..|targets| - 1])[last.path := last]
  }

  lemma {:induction false} TargetMapHolds(targets: seq<Target>)
    ensures forall p :: p in TargetMap(targets) ==> TargetMap(targets)[p] in targets && TargetMap(targets)[p].path == p
    ensures forall t :: t in targets ==> t.path in TargetMap(targets)
    ensures NoDuplicates(Paths(targets)) ==> forall t :: t in targets ==> TargetMap(targets)[t.path] == t
  {
    if targets != [] {
      var init, last := targets[..|targets| - 1], targets[|targets| - 1];
      assert targets == init + [last];
      TargetMapHolds(init);
      PathsSnoc(init, last);
      NoDuplicatesSnoc(Paths(init), last.path);
      if NoDuplicates(Paths(targets)) {
        forall t | t in targets ensures TargetMap(targets)[t.path] == t {
          if t in init {
            var i :| 0 <= i < |init| && init[i] == t;
            assert Paths(init)[i] == t.path;
          }
        }
      }
    }
  }

  /** What the authority asks of one operation, given the target of its path. */
  predicate OperationFits(op: EditOperation, target: Target, operations: set<OperationKind>) {
    match (op, target)
    case (Modify(_, expectedHash, _, _, _, _), ExistingFile(_, hash, _, _)) =>
      ModifyExisting in operations && expectedHash == hash
    case (Create(_, extension, _, _, absent, _), ProspectiveFile(_, trusted, _, _)) =>
      CreateTextFile in operations && extension == trusted && absent
    case _ => false
  }

  predicate SnapshotFits(file: FileSnapshot, target: Target) {
    match (file.status, target)
    case (Modified, ExistingFile(_, hash, _, _)) => file.baseHash == Some(hash)
    case (Created, ProspectiveFile(_, _, _, _)) => file.baseHash.None? && file.baseContent.None?
    case _ => false
  }

  ghost predicate OperationOk(op: EditOperation, targets: map<string, Target>, operations: set<OperationKind>) {
    PathOk(op.path) && op.path in targets && OperationFits(op, targets[op.path], operations)
  }

  ghost predicate SnapshotOk(file: FileSnapshot, targets: map<string, Target>) {
    PathOk(file.path) && file.path in targets && SnapshotFits(file, targets[file.path])
  }

  ghost predicate OperationsOk(ops: seq<EditOperation>, a: Authority) {
    forall op :: op in ops ==> OperationOk(op, TargetMap(a.targets), SetOf(a.constraints.allowedOperations))
  }

  ghost predicate AuthorityOk(plan: ValidatedEditPlan, a: Authority) {
    && IdentityMatches(plan.plan, a)
    && LimitsWithin(plan.plan.limits, a.constraints.limits)
    && OperationsOk(plan.plan.operations, a)
    && forall file :: file in plan.files ==> SnapshotOk(file, TargetMap(a.targets))
  }

  method CheckOperation(op: EditOperation, targets: map<string, Target>, operations: set<OperationKind>)
      returns (r: Verdict)
    ensures r.Ok? <==> OperationOk(op, targets, operations)
  {
    hide PathOk;
    var path := ValidateRelativePath(op.path);
    if path.Err? {
      return Err(path.error);
    }
    if path.value !in targets {
      return Err("intent.plan_target_not_allowed");
    }
    var target := targets[path.value];
    if op.Modify? && target.ExistingFile? {
      if ModifyExisting !in operations {
        return Err("intent.plan_operation_not_allowed");
      }
      if op.expectedFileHash != target.contentHash {
        return Err("intent.plan_hash_mismatch");
      }
    } else if op.Create? && target.ProspectiveFile? {
      if CreateTextFile !in operations {
        return Err("intent.plan_operation_not_allowed");
      }
      if op.extension != target.extension || !op.expectedAbsent {
        return Err("intent.plan_creation_mismatch");
      }
    } else {
      return Err("intent.plan_target_kind");
    }
    return Ok(());
  }

  method CheckSnapshot(file: FileSnapshot, targets: map<string, Target>) returns (r: Verdict)
    ensures r.Ok? <==> SnapshotOk(file, targets)
  {
    hide PathOk;
    var path := ValidateRelativePath(file.path);
    if path.Err? {
      return Err(path.error);
    }
    if path.value !in targets {
      return Err("intent.plan_snapshot_not_allowed");
    }
    var target := targets[path.value];
    if file.status == Modified && target.ExistingFile? && file.baseHash == Some(target.contentHash) {
      return Ok(());
    }
    if file.status == Created && target.ProspectiveFile? && file.baseHash == None && file.baseContent == None {
      return Ok(());
    }
    return Err("intent.plan_snapshot_mismatch");
  }

  method CollectTargets(targets: seq<Target>) returns (m: map<string, Target>)
    ensures m == TargetMap(targets)
  {
    m := map[];
    for i := 0 to |targets|
      invariant m == TargetMap(targets[..i])
    {
      assert targets[..i + 1][..i] == targets[..i];
      m := m[targets[i].path := targets[i]];
    }
    assert targets[..|targets|] == targets;
  }

  method ValidatePlanAgainstAuthority(plan: ValidatedEditPlan, a: Authority) returns (r: Verdict)
    ensures r.Ok? <==> AuthorityOk(plan, a)
  {
    hide LimitsExceed, LimitsWithin, OperationOk, SnapshotOk, TargetMap, SetOf;
    LimitsExceedIff(plan.plan.limits, a.constraints.limits);
    if !IdentityMatches(plan.plan, a) {
      return Err("intent.plan_identity_mismatch");
    }
    if LimitsExceed(plan.plan.limits, a.constraints.limits) {
      return Err("intent.plan_limit_escalation");
    }
    var operations := SetOf(a.constraints.allowedOperations);
    var targets := CollectTargets(a.targets);
    for i := 0 to |plan.plan.operations|
      invariant forall op :: op in plan.plan.operations[..i] ==> OperationOk(op, targets, operations)
    {
      var checked := CheckOperation(plan.plan.operations[i], targets, operations);
      if checked.Err? {
        return Err(checked.error);
      }
    }
    for i := 0 to |plan.files|
      invariant forall file :: file in plan.files[..i] ==> SnapshotOk(file, targets)
    {
      var checked := CheckSnapshot(plan.files[i], targets);
      if checked.Err? {
        return Err(checked.error);
      }
    }
    return Ok(());
  }

  ghost predicate PlanOkForIntent(plan: ValidatedEditPlan, v: ValidatedIntent, codec: Codec) {
    BindingOk(FromValidated(v, codec), codec) && AuthorityOk(plan, AuthorityOfIntent(v.intent))
  }

  ghost predicate PlanOkForBinding(plan: ValidatedEditPlan, b: Binding, codec: Codec) {
    BindingOk(b, codec) && AuthorityOk(plan, AuthorityOfBinding(b))
  }

  method ValidatePlanAgainstIntent(plan: ValidatedEditPlan, v: ValidatedIntent, codec: Codec) returns (r: Verdict)
    ensures r.Ok? <==> PlanOkForIntent(plan, v, codec)
  {
    hide BindingOk, AuthorityOk;
    var bound := ValidateBinding(FromValidated(v, codec), codec);
    if bound.Err? {
      return Err(bound.error);
    }
    r := ValidatePlanAgainstAuthority(plan, AuthorityOfIntent(v.intent));
  }

  method ValidatePlanAgainstBinding(plan: ValidatedEditPlan, b: Binding, codec: Codec) returns (r: Verdict)
    ensures r.Ok? <==> PlanOkForBinding(plan, b, codec)
  {
    hide BindingOk, AuthorityOk;
    var bound := ValidateBinding(b, codec);
    if bound.Err? {
      return Err(bound.error);
    }
    r := ValidatePlanAgainstAuthority(plan, AuthorityOfBinding(b));
  }

  // ---- What acceptance means ----

  /**
   For every accepted intent, a plan passes against the intent exactly when it passes against the
   binding that is stored for it, and then exactly when the authority checks pass.
   */
  lemma IntentAndBindingAgree(intent: EditIntent, expected: Expectations, codec: Codec, plan: ValidatedEditPlan)
    requires IntentOk(intent, expected) && CodecOk(codec)
    ensures var v := ValidatedOf(intent, codec);
      && (PlanOkForIntent(plan, v, codec) <==> PlanOkForBinding(plan, FromValidated(v, codec), codec))
      && (PlanOkForIntent(plan, v, codec) <==> AuthorityOk(plan, AuthorityOfIntent(v.intent)))
  {
    hide BindingOk, AuthorityOk, IntentOk, CodecOk;
    AcceptedIntentsBind(intent, expected, codec);
  }

  /** An accepted plan touches nothing but targets of the intent, each as the intent saw it. */
  lemma AcceptedPlansStayOnTargets(plan: ValidatedEditPlan, a: Authority)
    requires AuthorityOk(plan, a)
    ensures forall op :: op in plan.plan.operations ==>
      exists t :: t in a.targets && t.path == op.path && OperationFits(op, t, SetOf(a.constraints.allowedOperations))
    ensures forall file :: file in plan.files ==>
      exists t :: t in a.targets && t.path == file.path && SnapshotFits(file, t)
  {
    hide TargetMap, OperationFits, SnapshotFits, PathOk, SetOf, LimitsWithin;
    TargetMapHolds(a.targets);
  }
}
