/**
 Proposal records: what a stored generation holds, when it is valid, and how the store's six updates
 change it.
 */
module Records {
  import opened Wrappers
  import opened Text
  import opened Utf8
  import opened EditSchema
  import opened ProposalSchema
  import opened Intent
  import opened IntentBinding
  import opened PlanAuthority

  const STORE_SCHEMA_VERSION := 1
  const MAX_RECORD_BYTES := 12 * 1024 * 1024
  const MAX_POLICY_REFERENCES := 512
  const MAX_REASON_BYTES := 4 * 1024
  const REPORT_TTL_MILLIS := 7 * 24 * 60 * 60 * 1000

  datatype StageStatus = NotRun | Running | Passed | FailedStage | Cancelled | Unavailable

  /** A reference into the policy engine's audit log. */
  type PolicyReference = string

  datatype VerificationReport = VerificationReport(
    proposalId: string,
    success: bool,
    sourceUnchanged: bool,
    leaseRecoveryRequired: bool,
    apply: StageStatus,
    reparse: StageStatus,
    build: StageStatus,
    tests: StageStatus,
    diff: StageStatus,
    policy: seq<PolicyReference>,
    verifiedAt: Option<nat>,
    errors: seq<string>)

  datatype DiffStatistics = DiffStatistics(
    files: nat,
    addedFiles: nat,
    modifiedFiles: nat,
    deletedFiles: nat,
    renamedFiles: nat,
    binaryFiles: nat,
    additions: nat,
    deletions: nat,
    hunks: nat,
    patchBytes: nat)

  datatype VerifiedDiff = VerifiedDiff(patch: string, patchHash: string, statistics: DiffStatistics)

  datatype ApplyReport = ApplyReport(
    proposalId: string,
    transactionId: string,
    success: bool,
    postReparse: StageStatus,
    postBuild: StageStatus,
    rollbackAttempted: bool,
    rollbackSuccess: Option<bool>,
    policy: seq<PolicyReference>,
    appliedAt: Option<nat>,
    errors: seq<string>)

  datatype RollbackReport = RollbackReport(
    proposalId: string,
    transactionId: string,
    success: bool,
    reparse: StageStatus,
    policy: seq<PolicyReference>,
    rolledBackAt: Option<nat>,
    errors: seq<string>)

  datatype ProposalTransition = ProposalTransition(sequence: nat, state: ProposalState, recordedAt: nat, reason: string)

  datatype ProposalRecord = ProposalRecord(
    schemaVersion: nat,
    proposalId: string,
    workspaceId: string,
    workspaceRootHash: string,
    sequence: nat,
    state: ProposalState,
    createdAt: nat,
    updatedAt: nat,
    expiresAt: nat,
    reportExpiresAt: nat,
    intent: Option<Binding>,
    plan: EditPlan,
    files: seq<FileSnapshot>,
    transitions: seq<ProposalTransition>,
    policy: seq<PolicyReference>,
    verification: Option<VerificationReport>,
    verifiedDiff: Option<VerifiedDiff>,
    apply: Option<ApplyReport>,
    rollback: Option<RollbackReport>)

  /** Past its time to live, unless a transaction of it still matters. */
  predicate IsExpired(r: ProposalRecord, now: nat) {
    now > r.expiresAt && r.state !in {Applied, RollbackAvailable, RollingBack, RolledBack}
  }

  // ---- Validity ----

  ghost predicate IdentityOk(r: ProposalRecord, id: string, workspaceHash: string) {
    && r.schemaVersion == STORE_SCHEMA_VERSION
    && r.proposalId == id && r.plan.planId == id
    && r.workspaceRootHash == workspaceHash && r.plan.workspaceRootHash == workspaceHash
    && r.workspaceId == r.plan.workspaceId
    && r.createdAt <= r.updatedAt && r.createdAt <= r.expiresAt
    && r.transitions != [] && r.transitions[|r.transitions| - 1].state == r.state
  }

  /** The stored intent is still the authority for the stored plan. */
  ghost predicate BoundOk(r: ProposalRecord, codec: Codec) {
    r.intent.Some? ==>
      var b := r.intent.value;
      && BindingOk(b, codec)
      && b.payload.requestId == r.plan.requestId && b.payload.workspaceId == r.workspaceId
      && b.payload.workspaceRootHash == r.workspaceRootHash && b.payload.baseHead == r.plan.baseHead
      && b.payload.workingTreeDigest == r.plan.workingTreeDigest
      && PlanOkForBinding(ValidatedEditPlan(r.plan, r.files), b, codec)
  }

  /** Transitions are numbered from zero, and each step is in the table. */
  ghost predicate HistoryOk(transitions: seq<ProposalTransition>) {
    forall i :: 0 <= i < |transitions| ==>
      && transitions[i].sequence == i
      && (i > 0 ==> CanTransitionTo(transitions[i - 1].state, transitions[i].state))
  }

  ghost predicate ValidRecord(r: ProposalRecord, id: string, workspaceHash: string, codec: Codec) {
    IdentityOk(r, id, workspaceHash) && BoundOk(r, codec) && HistoryOk(r.transitions)
  }

  method ValidateHistory(transitions: seq<ProposalTransition>) returns (verdict: Verdict)
    ensures verdict.Ok? <==> HistoryOk(transitions)
  {
    hide CanTransitionTo;
    for i := 0 to |transitions|
      invariant HistoryOk(transitions[..i])
    {
      if transitions[i].sequence != i {
        return Err("proposal transition sequence is inconsistent");
      }
      if i > 0 && !CanTransitionTo(transitions[i - 1].state, transitions[i].state) {
        return Err("proposal transition history contains an invalid transition");
      }
    }
    assert transitions[..|transitions|] == transitions;
    return Ok(());
  }

  method ValidateRecord(r: ProposalRecord, id: string, workspaceHash: string, codec: Codec) returns (verdict: Verdict)
    ensures verdict.Ok? <==> ValidRecord(r, id, workspaceHash, codec)
  {
    hide BindingOk, PlanOkForBinding, HistoryOk;
    if r.schemaVersion != STORE_SCHEMA_VERSION || r.proposalId != id || r.plan.planId != id
       || r.workspaceRootHash != workspaceHash || r.plan.workspaceRootHash != workspaceHash
       || r.workspaceId != r.plan.workspaceId || r.updatedAt < r.createdAt || r.expiresAt < r.createdAt
       || r.transitions == [] || r.transitions[|r.transitions| - 1].state != r.state
    {
      return Err("proposal record identity, state, or timestamps are inconsistent");
    }
    if r.intent.Some? {
      var binding := r.intent.value;
      var bound := ValidateBinding(binding, codec);
      if bound.Err? {
        return Err(bound.error);
      }
      if binding.payload.requestId != r.plan.requestId || binding.payload.workspaceId != r.workspaceId
         || binding.payload.workspaceRootHash != r.workspaceRootHash || binding.payload.baseHead != r.plan.baseHead
         || binding.payload.workingTreeDigest != r.plan.workingTreeDigest
      {
        return Err("proposal record intent binding does not match its persisted plan");
      }
      var accepted := ValidatePlanAgainstBinding(ValidatedEditPlan(r.plan, r.files), binding, codec);
      if accepted.Err? {
        return Err(accepted.error);
      }
    }
    verdict := ValidateHistory(r.transitions);
  }

  // ---- Updates ----

  datatype Change =
    | Transition(next: ProposalState, reason: string)
    | RecordPolicy(decisions: seq<PolicyReference>)
    | RecordVerification(report: VerificationReport, diff: Option<VerifiedDiff>)
    | RecordApply(applied: ApplyReport)
    | RecordRollback(rolledBack: RollbackReport)

  datatype StoreError =
    | BadReason
    | IoFailure
    | NoProposal
    | AlreadyExists
    | TooManyGenerations
    | NoValidGeneration
    | InvalidTransition
    | PolicyBound
    | WrongProposal
    | SequenceExhausted
    | InvalidRecord
    | TooLarge
    | GenerationExists

  ghost predicate ReasonOk(reason: string) {
    Trim(reason) != "" && ByteLen(reason) <= MAX_REASON_BYTES
  }

  /** What a change asks of the record it is applied to. */
  function Refusal(r: ProposalRecord, change: Change): Option<StoreError> {
    match change
    case Transition(next, _) => if CanTransitionTo(r.state, next) then None else Some(InvalidTransition)
    case RecordPolicy(decisions) =>
      if |r.policy + decisions| > MAX_POLICY_REFERENCES then Some(PolicyBound) else None
    case RecordVerification(report, _) => if report.proposalId != r.proposalId then Some(WrongProposal) else None
    case RecordApply(report) => if report.proposalId != r.proposalId then Some(WrongProposal) else None
    case RecordRollback(report) => if report.proposalId != r.proposalId then Some(WrongProposal) else None
  }

  /** What an update has to fit: the table, the room for policy references, or the proposal itself. */
  ghost predicate MayTake(r: ProposalRecord, change: Change) {
    match change
    case Transition(next, _) => CanTransitionTo(r.state, next)
    case RecordPolicy(decisions) => |r.policy| + |decisions| <= 512
    case RecordVerification(report, _) => report.proposalId == r.proposalId
    case RecordApply(report) => report.proposalId == r.proposalId
    case RecordRollback(report) => report.proposalId == r.proposalId
  }

  lemma RefusalIff(r: ProposalRecord, change: Change)
    ensures Refusal(r, change).None? <==> MayTake(r, change)
    ensures Refusal(r, change) == Some(InvalidTransition) <==> change.Transition? && !MayTake(r, change)
    ensures Refusal(r, change) == Some(PolicyBound) <==> change.RecordPolicy? && !MayTake(r, change)
  {
  }

  function Changed(r: ProposalRecord, change: Change, now: nat): ProposalRecord {
    match change
    case Transition(next, reason) =>
      r.(state := next,
         transitions := r.transitions + [ProposalTransition(|r.transitions|, next, now, reason)])
    case RecordPolicy(decisions) => r.(policy := r.policy + decisions)
    case RecordVerification(report, diff) => r.(verification := Some(report), verifiedDiff := diff)
    case RecordApply(report) => r.(apply := Some(report))
    case RecordRollback(report) => r.(rollback := Some(report))
  }

  /** The next generation. */
  function Next(r: ProposalRecord, change: Change, now: nat): ProposalRecord {
    Changed(r, change, now).(sequence := r.sequence + 1, updatedAt := now)
  }

  /** `next` is the generation that some change made of `r`. */
  ghost predicate Succeeds(next: ProposalRecord, r: ProposalRecord) {
    exists change, now :: MayTake(r, change) && next == Next(r, change, now)
  }

  /** What no change touches. */
  ghost predicate SameProposal(a: ProposalRecord, b: ProposalRecord) {
    && a.proposalId == b.proposalId && a.workspaceId == b.workspaceId && a.workspaceRootHash == b.workspaceRootHash
    && a.createdAt == b.createdAt && a.expiresAt == b.expiresAt && a.reportExpiresAt == b.reportExpiresAt
    && a.intent == b.intent && a.plan == b.plan && a.files == b.files
  }

  /**
   What each change means: the field it writes holds what was asked for, a transition is numbered, stamped
   with the clock and carries the caller's reason, and all else is as before.
   */
  ghost predicate TookEffect(before: ProposalRecord, after: ProposalRecord, change: Change, now: nat) {
    && SameProposal(before, after) && after.schemaVersion == before.schemaVersion
    && after.sequence == before.sequence + 1 && after.updatedAt == now
    && (match change
        case Transition(next, reason) =>
          && after.state == next
          && after.transitions
             == before.transitions + [ProposalTransition(|before.transitions|, next, now, reason)]
        case _ => after.state == before.state && after.transitions == before.transitions)
    && after.policy == before.policy + (if change.RecordPolicy? then change.decisions else [])
    && (match change
        case RecordVerification(report, diff) => after.verification == Some(report) && after.verifiedDiff == diff
        case _ => after.verification == before.verification && after.verifiedDiff == before.verifiedDiff)
    && after.apply == (if change.RecordApply? then Some(change.applied) else before.apply)
    && after.rollback == (if change.RecordRollback? then Some(change.rolledBack) else before.rollback)
  }

  lemma NextTakesEffect(r: ProposalRecord, change: Change, now: nat)
    ensures TookEffect(r, Next(r, change, now), change, now)
  {
  }

  lemma SuccessorsExtend(r: ProposalRecord, next: ProposalRecord)
    requires Succeeds(next, r)
    ensures SameProposal(r, next) && next.sequence == r.sequence + 1
    ensures r.transitions <= next.transitions && r.policy <= next.policy
  {
  }

  /**
   A permitted change of a valid record gives a valid record whenever the clock is not behind the
   record's creation; in particular the checks against the stored intent keep passing.
   */
  lemma ChangesKeepValidity(r: ProposalRecord, change: Change, now: nat, id: string, workspaceHash: string,
                            codec: Codec)
    requires ValidRecord(r, id, workspaceHash, codec) && MayTake(r, change)
    ensures ValidRecord(Next(r, change, now), id, workspaceHash, codec) <==> r.createdAt <= now
  {
    hide BindingOk, PlanOkForBinding, CanTransitionTo;
  }

  // ---- Creation ----

  /** The first generation of a proposal. */
  function FirstRecord(validated: ValidatedEditPlan, intent: Option<Binding>, workspaceHash: string,
                       now: nat): ProposalRecord {
    ProposalRecord(
      STORE_SCHEMA_VERSION, validated.plan.planId, validated.plan.workspaceId, workspaceHash, 0, Validated,
      now, now, validated.plan.expiresAt, SaturatingAdd(now, REPORT_TTL_MILLIS), intent, validated.plan,
      validated.files, [ProposalTransition(0, Generated, now, "structured edit plan generated"),
       ProposalTransition(1, Validated, now, "untrusted plan passed strict runtime validation")],
      [], None, None, None, None)
  }

  /** A created record is the plan's, stamped with the clock, in its second state and with nothing reported yet. */
  ghost predicate NewlyCreated(r: ProposalRecord, validated: ValidatedEditPlan, intent: Option<Binding>,
                               workspaceHash: string, now: nat) {
    && r.schemaVersion == STORE_SCHEMA_VERSION && r.sequence == 0 && r.state == Validated
    && r.proposalId == validated.plan.planId && r.workspaceId == validated.plan.workspaceId
    && r.workspaceRootHash == workspaceHash && r.intent == intent
    && r.plan == validated.plan && r.files == validated.files
    && r.createdAt == now && r.updatedAt == now && r.expiresAt == validated.plan.expiresAt
    && r.reportExpiresAt == (if now + REPORT_TTL_MILLIS <= U64_MAX then now + REPORT_TTL_MILLIS else U64_MAX)
    && |r.transitions| == 2 && r.transitions[0].state == Generated && r.transitions[1].state == Validated
    && (forall i :: 0 <= i < 2 ==> r.transitions[i].sequence == i && r.transitions[i].recordedAt == now)
    && r.policy == [] && r.verification.None? && r.verifiedDiff.None? && r.apply.None? && r.rollback.None?
  }

  lemma FirstIsNew(validated: ValidatedEditPlan, intent: Option<Binding>, workspaceHash: string, now: nat)
    ensures NewlyCreated(FirstRecord(validated, intent, workspaceHash, now), validated, intent, workspaceHash, now)
  {
  }

  /** Creation publishes without validating; this is when what it published can be loaded. */
  lemma CreatedIsValidIff(validated: ValidatedEditPlan, workspaceHash: string, now: nat, codec: Codec)
    ensures ValidRecord(FirstRecord(validated, None, workspaceHash, now), validated.plan.planId, workspaceHash, codec)
      <==> validated.plan.workspaceRootHash == workspaceHash && now <= validated.plan.expiresAt
  {
    var r := FirstRecord(validated, None, workspaceHash, now);
    assert r.transitions[0].state == Generated && r.transitions[1].state == Validated;
  }

  /** With an intent, whose checks ran before, the same condition decides. */
  lemma CreatedWithIntentIsValidIff(validated: ValidatedEditPlan, v: ValidatedIntent, workspaceHash: string, now: nat,
                                    codec: Codec)
    requires PlanOkForIntent(validated, v, codec)
    ensures ValidRecord(FirstRecord(validated, Some(FromValidated(v, codec)), workspaceHash, now),
                        validated.plan.planId, workspaceHash, codec)
      <==> validated.plan.workspaceRootHash == workspaceHash && now <= validated.plan.expiresAt
  {
    hide BindingOk, OperationsOk, SnapshotOk, LimitsWithin;
    var b := FromValidated(v, codec);
    var r := FirstRecord(validated, Some(b), workspaceHash, now);
    assert AuthorityOfBinding(b) == AuthorityOfIntent(v.intent);
    assert ValidatedEditPlan(r.plan, r.files) == validated;
    assert r.transitions[0].state == Generated && r.transitions[1].state == Validated;
  }
}
