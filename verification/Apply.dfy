/**
 Applying a verified proposal to the original workspace. Everything the procedure asks of the outside
 world — clock, Git, policy engine, parser, transaction executor — is an input.
 */
module Apply {
  import opened Wrappers
  import opened EditSchema
  import opened ProposalSchema
  import opened Records
  import opened RecordFiles
  import opened StoreRuns
  import opened Store
  import opened Transactions
  import opened Lifecycle

  /** The texts that the records keep of what happened. */
  const APPROVAL_REASON := "native confirmation received; " + "issuing state-bound " + "one-shot approval"
  const NOT_ISSUED_REASON := "approval issuance failed before any workspace mutation"
  const APPLYING_REASON := "applying with transaction "
  const NOT_CONSUMED_REASON := "one-shot approval was not consumed; original workspace remained unchanged"
  const FAILED_CLOSED_REASON := "transactional apply failed closed"
  const UNDONE_REASON := "post-apply validation failed and automatic rollback ran"
  const APPLIED_REASON := "transaction committed " + "and passed postconditions"
  const AVAILABLE_REASON := "transaction is available " + "for exact rollback"
  const DIFF_ERROR := "post-apply Git diff differs from the verified diff"

  datatype Options = Options(workspaceId: string, profile: string, requestId: string)

  /** What `observe_repository` reports. */
  datatype Observed = Observed(clean: bool, head: string, workingTreeDigest: string, rootHash: string)

  /** Checking a policy request: it may fail, and otherwise leaves a reference in the audit log. */
  datatype Preflight = CheckFailed | Decided(reference: PolicyReference, requiresApproval: bool)

  /** Authorising: the check may fail, deny, or find its inputs drifted after allowing. */
  datatype Authorization = NotChecked | Denied(reference: PolicyReference) | Drifted(reference: PolicyReference)
                         | Granted(reference: PolicyReference)

  function ReferencesOf(a: Authorization): seq<PolicyReference> {
    if a.NotChecked? then [] else [a.reference]
  }

  /** Why a procedure returned without finishing. */
  datatype RunError =
    | StoreFailed(error: StoreError)
    | NotApplicable
    | WorkspaceDrifted
    | SnapshotMismatch
    | NoReport
    | NoStoredDiff
    | DiffMismatch
    | ApprovalNotRequired
    | ApprovalNotIssued
    | ApprovalNotConsumed
    | NotObserved

  datatype ApplyWorld = ApplyWorld(
    now: nat,
    nowAtCheck: nat,
    observed: Option<Observed>,
    preflight: Preflight,
    approvalId: Option<string>,
    consumed: Authorization,
    reparse: StageStatus,
    git: Option<VerifiedDiff>,
    appliedAt: nat)

  /** The original workspace. */
  class Workspace {
    var disk: Disk

    constructor (disk: Disk)
      ensures this.disk == disk
    {
      this.disk := disk;
    }
  }

  ghost predicate ApplyPreconditions(r: ProposalRecord, options: Options, now: nat) {
    && r.state == Verified && r.workspaceId == options.workspaceId && !IsExpired(r, now)
    && r.verification.Some? && r.verification.value.success && !r.verification.value.leaseRecoveryRequired
  }

  /** The repository is no longer as the plan found it. */
  ghost predicate Drift(r: ProposalRecord, o: Observed) {
    !o.clean || o.head != r.plan.baseHead || o.workingTreeDigest != r.plan.workingTreeDigest
    || o.rootHash != r.workspaceRootHash
  }

  /** What the state says about the files once this call has changed the record. */
  ghost predicate Truthful(r: ProposalRecord, files: Files) {
    && (r.state == Verified ==> Matches(files, r.files, false))
    && (r.state == RollbackAvailable ==> Matches(files, r.files, true))
  }

  /** What an apply asks for before it writes anything. */
  ghost predicate ApplyReady(record: ProposalRecord, files: Files, options: Options, world: ApplyWorld,
                             hash: string -> string)
  {
    && ApplyPreconditions(record, options, world.nowAtCheck)
    && world.observed.Some? && !Drift(record, world.observed.value)
    && AllMatch(files, record.files, false, hash)
    && record.verifiedDiff.Some? && hash(record.verifiedDiff.value.patch) == record.verifiedDiff.value.patchHash
    && world.preflight.Decided? && world.preflight.requiresApproval
  }

  lemma ApplyReadyFacts(record: ProposalRecord, files: Files, options: Options, world: ApplyWorld,
                        hash: string -> string)
    requires ApplyReady(record, files, options, world, hash)
    ensures record.state == Verified && Matches(files, record.files, false)
    ensures record.verifiedDiff.Some? && world.preflight.Decided?
  {
    hide Drift;
  }

  /** The repository is clean and has the head, the digest and the root that the plan was made for. */
  method CheckUndisturbed(record: ProposalRecord, observed: Option<Observed>) returns (ok: bool)
    ensures ok <==> observed.Some? && !Drift(record, observed.value)
  {
    if observed.None? {
      return false;
    }
    var o := observed.value;
    return o.clean && o.head == record.plan.baseHead && o.workingTreeDigest == record.plan.workingTreeDigest
           && o.rootHash == record.workspaceRootHash;
  }

  /** The checks before anything is written. */
  method CheckApply(record: ProposalRecord, files: Files, options: Options, world: ApplyWorld, hash: string -> string)
      returns (r: Result<VerifiedDiff, RunError>)
    ensures r.Ok? <==> ApplyReady(record, files, options, world, hash)
    ensures r.Ok? ==> record.verifiedDiff == Some(r.value)
  {
    hide AllMatch, Matches, IsExpired;
    if record.state != Verified || record.workspaceId != options.workspaceId || IsExpired(record, world.nowAtCheck) {
      return Err(NotApplicable);
    }
    if record.verification.None? || !record.verification.value.success
       || record.verification.value.leaseRecoveryRequired
    {
      return Err(NotApplicable);
    }
    var undisturbed := CheckUndisturbed(record, world.observed);
    if !undisturbed {
      return Err(WorkspaceDrifted);
    }
    var base := VerifySnapshotsAt(files, record.files, false, hash);
    if !base {
      return Err(SnapshotMismatch);
    }
    if record.verifiedDiff.None? {
      return Err(NoStoredDiff);
    }
    var diff := record.verifiedDiff.value;
    if hash(diff.patch) != diff.patchHash {
      return Err(DiffMismatch);
    }
    if world.preflight.CheckFailed? || !world.preflight.requiresApproval {
      return Err(ApprovalNotRequired);
    }
    return Ok(diff);
  }

  /** The state in which a call leaves a proposal it has changed. */
  const APPLY_ENDS := {Expired, Verified, ApprovalPending, Applying, Applied, RollbackAvailable, ProposalState.Failed}

  lemma ApplyEnds()
    ensures APPLY_ENDS
      == {Expired, Verified, ApprovalPending, Applying, Applied, RollbackAvailable, ProposalState.Failed}
  {
  }

  /** The edges an apply uses. */
  lemma ApplyEdges()
    ensures CanTransitionTo(Verified, ApprovalPending) && CanTransitionTo(ApprovalPending, Applying)
    ensures CanTransitionTo(ApprovalPending, Verified) && CanTransitionTo(Applying, Verified)
    ensures CanTransitionTo(Applying, ProposalState.Failed)
    ensures CanTransitionTo(Applying, Applied) && CanTransitionTo(Applied, RollbackAvailable)
    ensures RollbackAvailable in AFTER_APPLY
  {
  }

  // ---- The updates an apply asks for, and what becomes of them ----

  /** Policy references and the report end every apply. */
  function OutcomeChanges(decisions: seq<PolicyReference>, report: ApplyReport): seq<Change> {
    [RecordPolicy(decisions), RecordApply(report.(policy := decisions))]
  }

  /** The last two writes of every apply: its policy references, then its report. */
  method FileOutcome(store: ProposalStore, decisions: seq<PolicyReference>, report: ApplyReport)
      returns (r: Result<ProposalRecord, StoreError>)
    requires store.Valid() && AllOk(store.history) && (report.success ==> store.Last().state in AFTER_APPLY)
    modifies store
    ensures store.Valid() && AllOk(store.history) && old(store.history) <= store.history
    ensures store.illegal == old(store.illegal)
    ensures store.Now() == old(Play(store.storage, store.Now(), OutcomeChanges(decisions, report)))
    ensures r.Ok? <==> old(GoThrough(store.storage, store.Now(), OutcomeChanges(decisions, report)))
    ensures SameProposal(old(store.Last()), store.Last()) && store.Last().state == old(store.Last()).state
    ensures r.Ok? ==> r.value == store.Last() && r.value.apply == Some(report.(policy := decisions))
  {
    hide AllOk, Good, SameReports, SameProposal, Allowed, Attempt, Play, GoThrough;
    SameAsItself(store.Last());
    PlayTwo(store.storage, store.Now(), RecordPolicy(decisions), RecordApply(report.(policy := decisions)));
    var noted := Note(store, decisions);
    if noted.Err? {
      return noted;
    }
    r := FileApply(store, report.(policy := decisions));
    if r.Ok? {
      SameThrough(old(store.Last()), noted.value, r.value);
    }
  }

  function FailedChanges(restored: bool, decisions: seq<PolicyReference>, report: ApplyReport): seq<Change> {
    [Transition(if restored then Verified else ProposalState.Failed, FAILED_CLOSED_REASON)]
    + OutcomeChanges(decisions, report)
  }

  /** `finish_failed_apply`. */
  method FinishFailedApply(store: ProposalStore, decisions: seq<PolicyReference>, report: ApplyReport, restored: bool)
      returns (r: Result<ProposalRecord, StoreError>)
    requires store.Valid() && AllOk(store.history) && store.Last().state == Applying && !report.success
    modifies store
    ensures store.Valid() && AllOk(store.history) && old(store.history) <= store.history
    ensures store.illegal == old(store.illegal)
    ensures store.Now() == old(Play(store.storage, store.Now(), FailedChanges(restored, decisions, report)))
    ensures r.Ok? <==> old(GoThrough(store.storage, store.Now(), FailedChanges(restored, decisions, report)))
    ensures SameProposal(old(store.Last()), store.Last())
    ensures store.Last().state == Applying
      || store.Last().state == (if restored then Verified else ProposalState.Failed)
    ensures r.Ok? ==> store.Last().state != Applying
  {
    hide AllOk, Good, SameReports, SameProposal, CanTransitionTo, OutcomeChanges, Allowed, Attempt, Play, GoThrough;
    ApplyEdges();
    SameAsItself(store.Last());
    var target := if restored then Verified else ProposalState.Failed;
    PlayFirst(store.storage, store.Now(), Transition(target, FAILED_CLOSED_REASON), OutcomeChanges(decisions, report));
    var moved := Move(store, target, FAILED_CLOSED_REASON);
    if moved.Err? {
      return moved;
    }
    r := FileOutcome(store, decisions, report);
    SameThrough(old(store.Last()), moved.value, store.Last());
  }

  lemma SameAsItself(a: ProposalRecord)
    ensures SameProposal(a, a)
  {
  }

  lemma SameThrough(a: ProposalRecord, b: ProposalRecord, c: ProposalRecord)
    requires SameProposal(a, b) && SameProposal(b, c)
    ensures SameProposal(a, c)
  {
  }

  function ApproveChanges(world: ApplyWorld): seq<Change> {
    if world.approvalId.Some? then [Transition(ApprovalPending, APPROVAL_REASON)]
    else [Transition(ApprovalPending, APPROVAL_REASON), Transition(Verified, NOT_ISSUED_REASON)]
  }

  /** Wait for the one-shot approval; the workspace is not touched. */
  method Approve(store: ProposalStore, world: ApplyWorld) returns (r: Result<string, RunError>)
    requires store.Valid() && AllOk(store.history) && store.Last().state == Verified
    modifies store
    ensures store.Valid() && AllOk(store.history) && old(store.history) <= store.history
    ensures store.illegal == old(store.illegal)
    ensures store.Now() == old(Play(store.storage, store.Now(), ApproveChanges(world)))
    ensures r.Ok? <==>
      world.approvalId.Some? && old(GoThrough(store.storage, store.Now(), ApproveChanges(world)))
    ensures SameProposal(old(store.Last()), store.Last())
    ensures r.Ok? ==> store.Last().state == ApprovalPending && world.approvalId == Some(r.value)
    ensures r.Ok? ==> |store.history| > |old(store.history)|
    ensures store.Last().state in {Verified, ApprovalPending}
  {
    hide AllOk, Good, SameReports, SameProposal, CanTransitionTo, Allowed, Attempt, Play, GoThrough;
    ApplyEdges();
    SameAsItself(store.Last());
    var ask, giveUp := Transition(ApprovalPending, APPROVAL_REASON), Transition(Verified, NOT_ISSUED_REASON);
    PlayOne(store.storage, store.Now(), ask);
    PlayTwo(store.storage, store.Now(), ask, giveUp);
    var pending := Move(store, ApprovalPending, APPROVAL_REASON);
    if pending.Err? {
      return Err(StoreFailed(pending.error));
    }
    if world.approvalId.Some? {
      return Ok(world.approvalId.value);
    }
    var back := Move(store, Verified, NOT_ISSUED_REASON);
    if back.Err? {
      return Err(StoreFailed(back.error));
    }
    SameThrough(old(store.Last()), pending.value, back.value);
    return Err(ApprovalNotIssued);
  }

  function ConsumeChanges(world: ApplyWorld, transactionId: string, decisions: seq<PolicyReference>): seq<Change> {
    [Transition(Applying, APPLYING_REASON + transactionId)]
    + if world.consumed.Granted? then [] else [Transition(Verified, NOT_CONSUMED_REASON), RecordPolicy(decisions)]
  }

  /** Start applying and consume the approval; without it the proposal goes back, the workspace still untouched. */
  method Consume(store: ProposalStore, world: ApplyWorld, transactionId: string, decisions: seq<PolicyReference>)
      returns (r: Result<(), RunError>)
    requires store.Valid() && AllOk(store.history) && store.Last().state == ApprovalPending
    modifies store
    ensures store.Valid() && AllOk(store.history) && old(store.history) <= store.history
    ensures store.illegal == old(store.illegal)
    ensures store.Now() == old(Play(store.storage, store.Now(), ConsumeChanges(world, transactionId, decisions)))
    ensures r.Ok? <==>
      world.consumed.Granted?
      && old(GoThrough(store.storage, store.Now(), ConsumeChanges(world, transactionId, decisions)))
    ensures SameProposal(old(store.Last()), store.Last())
    ensures r.Ok? ==> store.Last().state == Applying
    ensures store.Last().state in {ApprovalPending, Verified, Applying}
  {
    hide AllOk, Good, SameReports, SameProposal, CanTransitionTo, Allowed, Attempt, Play, GoThrough;
    ApplyEdges();
    SameAsItself(store.Last());
    var start, back := Transition(Applying, APPLYING_REASON + transactionId), Transition(Verified, NOT_CONSUMED_REASON);
    PlayFirst(store.storage, store.Now(), start, []);
    PlayFirst(store.storage, store.Now(), start, [back, RecordPolicy(decisions)]);
    var applying := Move(store, Applying, APPLYING_REASON + transactionId);
    PlayNothing(store.storage, store.Now());
    PlayTwo(store.storage, store.Now(), back, RecordPolicy(decisions));
    if applying.Err? {
      return Err(StoreFailed(applying.error));
    }
    if world.consumed.Granted? {
      return Ok(());
    }
    var returned := Move(store, Verified, NOT_CONSUMED_REASON);
    if returned.Err? {
      return Err(StoreFailed(returned.error));
    }
    SameThrough(old(store.Last()), applying.value, returned.value);
    var noted := Note(store, decisions);
    if noted.Err? {
      return Err(StoreFailed(noted.error));
    }
    SameThrough(old(store.Last()), returned.value, noted.value);
    return Err(ApprovalNotConsumed);
  }

  lemma SamePlanAndFiles(a: ProposalRecord, b: ProposalRecord)
    requires SameProposal(a, b)
    ensures a.files == b.files && a.plan == b.plan && a.proposalId == b.proposalId
  {
  }

  // ---- After a commit ----

  /** Where a commit that was undone leaves the proposal. */
  ghost function UndoneState(outcome: RollbackOutcome, files: Files, record: ProposalRecord, hash: string -> string)
      : ProposalState
  {
    if RolledBackBy(outcome) && AllMatch(files, record.files, false, hash) then Verified else ProposalState.Failed
  }

  function UndoneReport(report: ApplyReport, outcome: RollbackOutcome): ApplyReport {
    report.(
      rollbackAttempted := true,
      rollbackSuccess := Some(RolledBackBy(outcome)),
      errors := report.errors + if outcome.RollbackFinished? then outcome.errors else [outcome.error])
  }

  /** The transaction did not survive its checks: undo it, and say whether that worked. */
  method UndoCommit(store: ProposalStore, ws: Workspace, executor: Executor, record: ProposalRecord,
                    transactionId: string, report: ApplyReport, hash: string -> string)
      returns (r: Result<ApplyReport, RunError>)
    requires store.Valid() && AllOk(store.history) && store.Last().state == Applying && !report.success
    requires SameProposal(record, store.Last())
    modifies store, ws
    ensures store.Valid() && AllOk(store.history) && old(store.history) <= store.history
    ensures store.illegal == old(store.illegal)
    ensures SameProposal(record, store.Last()) && Truthful(store.Last(), ws.disk.files)
    ensures var (outcome, after) := executor.rollback(old(ws.disk), transactionId);
      var change := Transition(UndoneState(outcome, after.files, record, hash), UNDONE_REASON);
      && ws.disk == after
      && store.Now() == old(Play(store.storage, store.Now(), [change]))
      && (r.Ok? <==> old(GoThrough(store.storage, store.Now(), [change])))
      && (r.Ok? ==> store.Last().state == change.next && r.value == UndoneReport(report, outcome))
    ensures r.Err? ==> store.Last().state == Applying
  {
    hide AllOk, Good, SameReports, SameProposal, CanTransitionTo, Allowed, Attempt, Play, GoThrough, Matches, AllMatch,
         Truthful;
    ApplyEdges();
    var (outcome, after) := executor.rollback(ws.disk, transactionId);
    ws.disk := after;
    var restored := false;
    if RolledBackBy(outcome) {
      restored := VerifySnapshotsAt(ws.disk.files, record.files, false, hash);
    }
    var target := if restored then Verified else ProposalState.Failed;
    PlayOne(store.storage, store.Now(), Transition(target, UNDONE_REASON));
    var moved := Move(store, target, UNDONE_REASON);
    if moved.Ok? {
      SameThrough(record, old(store.Last()), moved.value);
    }
    TruthfulAt(record, store.Last(), ws.disk.files);
    if moved.Err? {
      return Err(StoreFailed(moved.error));
    }
    return Ok(UndoneReport(report, outcome));
  }

  function KeepChanges(): seq<Change> {
    [Transition(Applied, APPLIED_REASON), Transition(RollbackAvailable, AVAILABLE_REASON)]
  }

  /** Two transitions make a checked transaction available for rollback. */
  method KeepCommit(store: ProposalStore, record: ProposalRecord) returns (r: Result<(), RunError>)
    requires store.Valid() && AllOk(store.history) && store.Last().state == Applying
    requires SameProposal(record, store.Last())
    modifies store
    ensures store.Valid() && AllOk(store.history) && old(store.history) <= store.history
    ensures store.illegal == old(store.illegal)
    ensures store.Now() == old(Play(store.storage, store.Now(), KeepChanges()))
    ensures r.Ok? <==> old(GoThrough(store.storage, store.Now(), KeepChanges()))
    ensures SameProposal(record, store.Last())
    ensures r.Ok? ==> store.Last().state == RollbackAvailable
    ensures r.Err? ==> store.Last().state in {Applying, Applied}
  {
    hide AllOk, Good, SameReports, SameProposal, CanTransitionTo, Allowed, Attempt, Play, GoThrough;
    ApplyEdges();
    PlayTwo(store.storage, store.Now(), Transition(Applied, APPLIED_REASON),
            Transition(RollbackAvailable, AVAILABLE_REASON));
    var applied := Move(store, Applied, APPLIED_REASON);
    if applied.Err? {
      return Err(StoreFailed(applied.error));
    }
    SameThrough(record, old(store.Last()), applied.value);
    var available := Move(store, RollbackAvailable, AVAILABLE_REASON);
    if available.Err? {
      return Err(StoreFailed(available.error));
    }
    SameThrough(record, applied.value, available.value);
    return Ok(());
  }

  lemma TruthfulAt(record: ProposalRecord, r: ProposalRecord, files: Files)
    requires SameProposal(record, r)
    requires r.state == Verified ==> Matches(files, record.files, false)
    requires r.state == RollbackAvailable ==> Matches(files, record.files, true)
    ensures Truthful(r, files)
  {
  }

  lemma StillTruthful(a: ProposalRecord, b: ProposalRecord, files: Files)
    requires Truthful(a, files) && SameProposal(a, b) && a.state == b.state
    ensures Truthful(b, files)
  {
  }

  predicate BuildPassed(record: ProposalRecord) {
    record.verification.Some? && record.verification.value.build == Passed
  }

  /** A commit is kept when the files parse, the diff is exactly the verified one, and that one was built. */
  ghost predicate Kept(record: ProposalRecord, diff: VerifiedDiff, files: Files, world: ApplyWorld,
                       hash: string -> string) {
    && world.reparse == Passed && BuildPassed(record)
    && Captured(files, record.files, world.git, hash) == Some(diff)
  }

  /** The report once the committed files have been looked at. */
  function CheckedReport(record: ProposalRecord, report: ApplyReport, exact: bool, world: ApplyWorld): ApplyReport {
    report.(
      postReparse := world.reparse,
      postBuild := if BuildPassed(record) && exact then Passed else FailedStage,
      errors := report.errors + if exact then [] else [DIFF_ERROR])
  }

  ghost function CommitChanges(executor: Executor, disk: Disk, record: ProposalRecord, diff: VerifiedDiff,
                               transactionId: string, report: ApplyReport, decisions: seq<PolicyReference>,
                               world: ApplyWorld, hash: string -> string): seq<Change>
  {
    var exact := Captured(disk.files, record.files, world.git, hash) == Some(diff);
    var checked := CheckedReport(record, report, exact, world);
    if Kept(record, diff, disk.files, world, hash) then
      KeepChanges() + OutcomeChanges(decisions, checked.(success := true, appliedAt := Some(world.appliedAt)))
    else
      var (outcome, after) := executor.rollback(disk, transactionId);
      [Transition(UndoneState(outcome, after.files, record, hash), UNDONE_REASON)]
      + OutcomeChanges(decisions, UndoneReport(checked, outcome))
  }

  /** The commit is kept exactly when it survives its checks, and undone otherwise; either way it is filed. */
  ghost predicate CommitOutcome(storage: Storage, before: Run, disk: Disk, after: Run, diskAfter: Disk,
                                r: Result<ProposalRecord, RunError>, executor: Executor, record: ProposalRecord,
                                diff: VerifiedDiff, transactionId: string, report: ApplyReport,
                                decisions: seq<PolicyReference>, world: ApplyWorld, hash: string -> string)
  {
    var changes := CommitChanges(executor, disk, record, diff, transactionId, report, decisions, world, hash);
    var (outcome, undone) := executor.rollback(disk, transactionId);
    var kept := Kept(record, diff, disk.files, world, hash);
    && after == Play(storage, before, changes)
    && (r.Ok? <==> GoThrough(storage, before, changes))
    && diskAfter == (if kept then disk else undone)
    && (r.Ok? ==>
          r.value.state == if kept then RollbackAvailable else UndoneState(outcome, undone.files, record, hash))
  }

  /** The transaction committed: check what it did, and either keep it or undo it. */
  method AfterCommit(store: ProposalStore, ws: Workspace, executor: Executor, record: ProposalRecord,
                     diff: VerifiedDiff, transactionId: string, report: ApplyReport,
                     decisions: seq<PolicyReference>, world: ApplyWorld, hash: string -> string)
      returns (r: Result<ProposalRecord, RunError>)
    requires store.Valid() && AllOk(store.history) && store.Last().state == Applying && !report.success
    requires SameProposal(record, store.Last()) && report.transactionId == transactionId
    modifies store, ws
    ensures store.Valid() && AllOk(store.history) && old(store.history) <= store.history
    ensures store.illegal == old(store.illegal)
    ensures SameProposal(record, store.Last()) && Truthful(store.Last(), ws.disk.files)
    ensures CommitOutcome(store.storage, old(store.Now()), old(ws.disk), store.Now(), ws.disk, r, executor, record,
                          diff, transactionId, report, decisions, world, hash)
    ensures r.Ok? ==> r.value == store.Last()
    ensures store.Last().state in APPLY_ENDS
    ensures store.Last().state == RollbackAvailable ==> ws.disk == old(ws.disk)
    ensures r.Ok? && r.value.state == RollbackAvailable ==>
      r.value.apply.Some? && r.value.apply.value.success && r.value.apply.value.transactionId == transactionId
  {
    hide AllOk, Good, SameReports, SameProposal, Matches, AllMatch, CanTransitionTo, Truthful, KeepChanges,
         OutcomeChanges, Allowed, Attempt, Play, GoThrough, UndoneState, Captured;
    ApplyEdges();
    UndoneStates(executor.rollback(ws.disk, transactionId).0, executor.rollback(ws.disk, transactionId).1.files, record,
                 hash);
    TruthfulAt(record, store.Last(), ws.disk.files);
    var actual := CaptureVerifiedDiff(ws.disk.files, record.files, world.git, hash);
    var exact := actual == Some(diff);
    var filed := CheckedReport(record, report, exact, world);
    ghost var (outcome, after) := executor.rollback(ws.disk, transactionId);
    ghost var first: seq<Change>;
    if filed.postReparse != Passed || filed.postBuild != Passed || !exact {
      first := [Transition(UndoneState(outcome, after.files, record, hash), UNDONE_REASON)];
      PlayConcat(store.storage, store.Now(), first, OutcomeChanges(decisions, UndoneReport(filed, outcome)));
      var undone := UndoCommit(store, ws, executor, record, transactionId, filed, hash);
      if undone.Err? {
        return Err(undone.error);
      }
      filed := undone.value;
    } else {
      filed := filed.(success := true, appliedAt := Some(world.appliedAt));
      PlayConcat(store.storage, store.Now(), KeepChanges(), OutcomeChanges(decisions, filed));
      var kept := KeepCommit(store, record);
      TruthfulAt(record, store.Last(), ws.disk.files);
      if kept.Err? {
        return Err(kept.error);
      }
    }
    ghost var settled := store.Last();
    var result := FileOutcome(store, decisions, filed);
    SameThrough(record, settled, store.Last());
    StillTruthful(settled, store.Last(), ws.disk.files);
    if result.Err? {
      return Err(StoreFailed(result.error));
    }
    return Ok(result.value);
  }

  lemma UndoneStates(outcome: RollbackOutcome, files: Files, record: ProposalRecord, hash: string -> string)
    ensures UndoneState(outcome, files, record, hash) in {Verified, ProposalState.Failed}
  {
  }

  // ---- After a failure ----

  /** The transaction did not commit: see whether the files are as before, and file the failure. */
  method AfterFailure(store: ProposalStore, files: Files, record: ProposalRecord, report: ApplyReport,
                      decisions: seq<PolicyReference>, hash: string -> string)
      returns (r: Result<ProposalRecord, RunError>)
    requires store.Valid() && AllOk(store.history) && store.Last().state == Applying && !report.success
    requires SameProposal(record, store.Last())
    modifies store
    ensures store.Valid() && AllOk(store.history) && old(store.history) <= store.history
    ensures store.illegal == old(store.illegal)
    ensures var changes := FailedChanges(AllMatch(files, record.files, false, hash), decisions, report);
      && store.Now() == old(Play(store.storage, store.Now(), changes))
      && (r.Ok? <==>
          && old(GoThrough(store.storage, store.Now(), changes))
          && |old(store.history)| + 3 <= MAX_RECORD_GENERATIONS)
    ensures SameProposal(record, store.Last()) && Truthful(store.Last(), files)
    ensures store.Last().state in {Applying, Verified, ProposalState.Failed}
    ensures r.Ok? ==>
      && r.value == store.Last()
      && r.value.state == if AllMatch(files, record.files, false, hash) then Verified else ProposalState.Failed
  {
    hide AllOk, Good, SameReports, SameProposal, Matches, AllMatch, CanTransitionTo, Truthful, Allowed, Attempt, Play,
         GoThrough, OutcomeChanges;
    var restored := VerifySnapshotsAt(files, record.files, false, hash);
    ThreeChanges(restored, decisions, report);
    PlayGrows(store.storage, store.Now(), FailedChanges(restored, decisions, report));
    var finished := FinishFailedApply(store, decisions, report, restored);
    SameThrough(record, old(store.Last()), store.Last());
    TruthfulAt(record, store.Last(), files);
    if finished.Err? {
      return Err(StoreFailed(finished.error));
    }
    var loaded := store.Load();
    if loaded.Err? {
      return Err(StoreFailed(loaded.error));
    }
    return Ok(loaded.value);
  }

  lemma ThreeChanges(restored: bool, decisions: seq<PolicyReference>, report: ApplyReport)
    ensures |FailedChanges(restored, decisions, report)| == 3
  {
  }

  // ---- The whole apply ----

  /** Until approval and its consumption are both through, nothing is executed. */
  function StartChanges(world: ApplyWorld, transactionId: string, decisions: seq<PolicyReference>): seq<Change> {
    ApproveChanges(world)
    + if world.approvalId.Some? then ConsumeChanges(world, transactionId, decisions) else []
  }

  predicate ApplyApproved(world: ApplyWorld) {
    world.approvalId.Some? && world.consumed.Granted?
  }

  /** Approval and its consumption: until both are through, the files are as they were checked. */
  method StartApply(store: ProposalStore, files: Files, record: ProposalRecord, world: ApplyWorld,
                    transactionId: string, decisions: seq<PolicyReference>)
      returns (r: Result<(), RunError>)
    requires store.Valid() && AllOk(store.history) && store.Last() == record && record.state == Verified
    requires Matches(files, record.files, false)
    modifies store
    ensures store.Valid() && AllOk(store.history) && old(store.history) <= store.history
    ensures store.illegal == old(store.illegal)
    ensures store.Now() == old(Play(store.storage, store.Now(), StartChanges(world, transactionId, decisions)))
    ensures r.Ok? <==>
      && ApplyApproved(world)
      && old(GoThrough(store.storage, store.Now(), StartChanges(world, transactionId, decisions)))
    ensures SameProposal(record, store.Last()) && Truthful(store.Last(), files)
    ensures store.Last().state in {Verified, ApprovalPending, Applying} && (r.Ok? ==> store.Last().state == Applying)
    ensures r.Ok? ==> |store.history| > |old(store.history)|
  {
    hide AllOk, Good, SameReports, SameProposal, Matches, Truthful, ApproveChanges, ConsumeChanges, Allowed, Attempt,
         Play, GoThrough;
    SameAsItself(record);
    TruthfulAt(record, record, files);
    PlayConcat(store.storage, store.Now(), ApproveChanges(world),
               if world.approvalId.Some? then ConsumeChanges(world, transactionId, decisions) else []);
    var approved := Approve(store, world);
    TruthfulAt(record, store.Last(), files);
    PlayNothing(store.storage, store.Now());
    if approved.Err? {
      return Err(approved.error);
    }
    ghost var pending := store.Last();
    r := Consume(store, world, transactionId, decisions);
    SameThrough(record, pending, store.Last());
    TruthfulAt(record, store.Last(), files);
  }

  /** The report before anything of the transaction is known. */
  function BlankReport(record: ProposalRecord, transactionId: string): ApplyReport {
    ApplyReport(record.proposalId, transactionId, false, NotRun, NotRun, false, None, [], None, [])
  }

  function FailureReport(record: ProposalRecord, transactionId: string, outcome: ApplyOutcome): ApplyReport {
    var report := BlankReport(record, transactionId);
    if outcome.ApplyRaised? then report.(errors := [outcome.error])
    else report.(rollbackAttempted := outcome.rollbackAttempted, rollbackSuccess := outcome.rollbackSuccess,
                 errors := outcome.errors)
  }

  function Transacted(executor: Executor, disk: Disk, record: ProposalRecord, transactionId: string)
      : (ApplyOutcome, Disk) {
    executor.apply(disk, ProposalMutations(record.files), transactionId)
  }

  ghost function ExecuteChanges(executor: Executor, disk: Disk, record: ProposalRecord, diff: VerifiedDiff,
                                world: ApplyWorld, transactionId: string, decisions: seq<PolicyReference>,
                                hash: string -> string): seq<Change>
  {
    var (outcome, after) := Transacted(executor, disk, record, transactionId);
    if Committed(outcome) then
      CommitChanges(executor, after, record, diff, transactionId, BlankReport(record, transactionId), decisions,
                    world, hash)
    else
      FailedChanges(AllMatch(after.files, record.files, false, hash), decisions,
                    FailureReport(record, transactionId, outcome))
  }

  /** The transaction commits and survives its checks. */
  ghost predicate Survives(executor: Executor, disk: Disk, record: ProposalRecord, diff: VerifiedDiff,
                           world: ApplyWorld, transactionId: string, hash: string -> string)
  {
    var (outcome, after) := Transacted(executor, disk, record, transactionId);
    Committed(outcome) && Kept(record, diff, after.files, world, hash)
  }

  /** What a transaction leaves on the disk: a commit that does not survive its checks is undone again. */
  ghost function DiskAfter(executor: Executor, disk: Disk, record: ProposalRecord, diff: VerifiedDiff,
                           world: ApplyWorld, transactionId: string, hash: string -> string): Disk
  {
    var (outcome, after) := Transacted(executor, disk, record, transactionId);
    if Committed(outcome) && !Kept(record, diff, after.files, world, hash)
    then executor.rollback(after, transactionId).1
    else after
  }

  /** An apply that did not commit reads the record once more before it answers. */
  predicate AnswerReadable(committed: bool, generations: nat) {
    committed || generations + 3 <= MAX_RECORD_GENERATIONS
  }

  ghost predicate ExecuteOutcome(storage: Storage, before: Run, disk: Disk, after: Run, diskAfter: Disk,
                                 r: Result<ProposalRecord, RunError>, executor: Executor, record: ProposalRecord,
                                 diff: VerifiedDiff, world: ApplyWorld, transactionId: string,
                                 decisions: seq<PolicyReference>, hash: string -> string)
  {
    && (r.Ok? ==>
          (r.value.state == RollbackAvailable <==> Survives(executor, disk, record, diff, world, transactionId, hash)))
    && var outcome := Transacted(executor, disk, record, transactionId).0;
    var changes := ExecuteChanges(executor, disk, record, diff, world, transactionId, decisions, hash);
    && after == Play(storage, before, changes)
    && (r.Ok? <==>
          GoThrough(storage, before, changes) && AnswerReadable(Committed(outcome), |before.history|))
    && diskAfter == DiskAfter(executor, disk, record, diff, world, transactionId, hash)
  }

  /** Run the transaction, and file what became of it. */
  method Execute(store: ProposalStore, ws: Workspace, executor: Executor, record: ProposalRecord, diff: VerifiedDiff,
                 world: ApplyWorld, transactionId: string, decisions: seq<PolicyReference>, hash: string -> string)
      returns (r: Result<ProposalRecord, RunError>)
    requires store.Valid() && AllOk(store.history) && store.Last().state == Applying
    requires SameProposal(record, store.Last())
    modifies store, ws
    ensures store.Valid() && AllOk(store.history) && old(store.history) <= store.history
    ensures store.illegal == old(store.illegal)
    ensures ExecuteOutcome(store.storage, old(store.Now()), old(ws.disk), store.Now(), ws.disk, r, executor, record,
                           diff, world, transactionId, decisions, hash)
    ensures SameProposal(record, store.Last()) && Truthful(store.Last(), ws.disk.files)
      && store.Last().state in APPLY_ENDS
    ensures r.Ok? ==> r.value == store.Last() && r.value.state in {Verified, ProposalState.Failed, RollbackAvailable}
    ensures store.Last().state == RollbackAvailable ==>
      var (outcome, after) := Transacted(executor, old(ws.disk), record, transactionId);
      Committed(outcome) && ws.disk == after
    ensures r.Ok? && r.value.state == RollbackAvailable ==>
      r.value.apply.Some? && r.value.apply.value.success && r.value.apply.value.transactionId == transactionId
  {
    hide AllOk, Good, SameReports, SameProposal, Matches, AllMatch, CanTransitionTo, Truthful, CommitChanges,
         FailedChanges, OutcomeChanges, Allowed, Attempt, Play, GoThrough, UndoneState, Captured, ProposalMutations,
         Kept;
    ApplyEnds();
    var (outcome, after) := Transacted(executor, ws.disk, record, transactionId);
    UndoneStates(executor.rollback(after, transactionId).0, executor.rollback(after, transactionId).1.files, record,
                 hash);
    ws.disk := after;
    if Committed(outcome) {
      r := AfterCommit(store, ws, executor, record, diff, transactionId, BlankReport(record, transactionId), decisions,
                       world, hash);
    } else {
      r := AfterFailure(store, ws.disk.files, record, FailureReport(record, transactionId, outcome), decisions, hash);
    }
  }

  function ApplyDecisions(world: ApplyWorld): seq<PolicyReference> {
    (if world.preflight.Decided? then [world.preflight.reference] else []) + ReferencesOf(world.consumed)
  }

  /** Everything asked for once the checks are passed. */
  ghost function CheckedChanges(executor: Executor, disk: Disk, record: ProposalRecord, diff: VerifiedDiff,
                                world: ApplyWorld, transactionId: string, hash: string -> string): seq<Change>
  {
    StartChanges(world, transactionId, ApplyDecisions(world))
    + if ApplyApproved(world)
      then ExecuteChanges(executor, disk, record, diff, world, transactionId, ApplyDecisions(world), hash)
      else []
  }

  /** Approval and its consumption are through, on the record as well. */
  ghost predicate Started(storage: Storage, run: Run, world: ApplyWorld, transactionId: string) {
    ApplyApproved(world) && GoThrough(storage, run, StartChanges(world, transactionId, ApplyDecisions(world)))
  }

  /** What an apply that passed its checks does to the record and to the disk, and when it answers. */
  ghost predicate CheckedOutcome(storage: Storage, before: Run, disk: Disk, after: Run, diskAfter: Disk,
                                 r: Result<ProposalRecord, RunError>, executor: Executor, record: ProposalRecord,
                                 diff: VerifiedDiff, world: ApplyWorld, transactionId: string)
  {
    var hash := storage.codec.hash;
    && (r.Ok? ==>
          (r.value.state == RollbackAvailable <==> Survives(executor, disk, record, diff, world, transactionId, hash)))
    && var changes := CheckedChanges(executor, disk, record, diff, world, transactionId, hash);
    var outcome := Transacted(executor, disk, record, transactionId).0;
    && after == Play(storage, before, changes)
    && (r.Ok? <==>
          && ApplyApproved(world) && GoThrough(storage, before, changes)
          && AnswerReadable(Committed(outcome), |before.history| + 2))
    && diskAfter == (if Started(storage, before, world, transactionId)
                     then DiskAfter(executor, disk, record, diff, world, transactionId, hash) else disk)
  }

  /** From the passed checks on. */
  method ApplyChecked(store: ProposalStore, ws: Workspace, executor: Executor, record: ProposalRecord,
                      diff: VerifiedDiff, world: ApplyWorld, transactionId: string)
      returns (r: Result<ProposalRecord, RunError>)
    requires store.Valid() && AllOk(store.history) && store.Last() == record && record.state == Verified
    requires Matches(ws.disk.files, record.files, false)
    modifies store, ws
    ensures store.Valid() && AllOk(store.history) && old(store.history) <= store.history
    ensures store.illegal == old(store.illegal)
    ensures CheckedOutcome(store.storage, old(store.Now()), old(ws.disk), store.Now(), ws.disk, r, executor, record,
                           diff, world, transactionId)
    ensures SameProposal(record, store.Last()) && Truthful(store.Last(), ws.disk.files)
    ensures store.Last().state in APPLY_ENDS
    ensures store.history == old(store.history) ==> r.Err? && ws.disk == old(ws.disk)
    ensures r.Ok? ==> r.value == store.Last() && r.value.state in {Verified, ProposalState.Failed, RollbackAvailable}
    ensures store.Last().state == RollbackAvailable ==>
      var (outcome, after) := Transacted(executor, old(ws.disk), record, transactionId);
      Committed(outcome) && ws.disk == after
    ensures r.Ok? && r.value.state == RollbackAvailable ==>
      r.value.apply.Some? && r.value.apply.value.success && r.value.apply.value.transactionId == transactionId
  {
    hide AllOk, Good, SameReports, SameProposal, Matches, AllMatch, CanTransitionTo, Truthful, StartChanges,
         ExecuteChanges, Allowed, Attempt, Play, GoThrough, Transacted, Survives, DiskAfter;
    ApplyEnds();
    SameAsItself(record);
    ghost var before, hash := store.Now(), store.storage.codec.hash;
    var decisions := ApplyDecisions(world);
    ghost var first := StartChanges(world, transactionId, decisions);
    ghost var rest := if ApplyApproved(world)
      then ExecuteChanges(executor, ws.disk, record, diff, world, transactionId, decisions, hash) else [];
    PlayConcat(store.storage, before, first, rest);
    PlayGrows(store.storage, before, first);
    StartLength(world, transactionId, decisions);
    var started := StartApply(store, ws.disk.files, record, world, transactionId, decisions);
    PlayNothing(store.storage, store.Now());
    if started.Err? {
      return Err(started.error);
    }
    r := Execute(store, ws, executor, record, diff, world, transactionId, decisions, store.storage.codec.hash);
  }

  lemma StartLength(world: ApplyWorld, transactionId: string, decisions: seq<PolicyReference>)
    ensures ApplyApproved(world) ==> |StartChanges(world, transactionId, decisions)| == 2
  {
  }

  /** The proposal can be read, has not lapsed, and passes the checks. */
  ghost predicate MayApply(history: seq<ProposalRecord>, files: Files, options: Options, world: ApplyWorld,
                           hash: string -> string)
    requires history != []
  {
    && |history| <= MAX_RECORD_GENERATIONS && ExpiryChanges(history, world.now) == []
    && ApplyReady(history[|history| - 1], files, options, world, hash)
  }

  lemma MayApplyFacts(history: seq<ProposalRecord>, files: Files, options: Options, world: ApplyWorld,
                      hash: string -> string)
    requires history != [] && MayApply(history, files, options, world, hash)
    ensures var record := history[|history| - 1];
      record.state == Verified && record.verifiedDiff.Some? && Matches(files, record.files, false)
  {
    hide ExpiryChanges, ApplyReady;
    ApplyReadyFacts(history[|history| - 1], files, options, world, hash);
  }

  // ---- What the report says ----

  /** The report on a committed transaction: what was checked, and whether it was undone again and how. */
  ghost predicate CommitReported(q: ApplyReport, record: ProposalRecord, exact: bool, kept: bool,
                                 undone: RollbackOutcome, world: ApplyWorld, transactionId: string,
                                 decisions: seq<PolicyReference>)
  {
    && q.proposalId == record.proposalId && q.transactionId == transactionId && q.success == kept
    && q.postReparse == world.reparse
    && (q.postBuild == Passed
        <==> exact && record.verification.Some? && record.verification.value.build == Passed)
    && q.postBuild in {Passed, FailedStage}
    && q.rollbackAttempted == !kept
    && q.rollbackSuccess == (if kept then None else Some(undone.RollbackFinished? && undone.rolledBack))
    && q.policy == decisions && q.appliedAt == (if kept then Some(world.appliedAt) else None)
    && q.errors == (if exact then [] else [DIFF_ERROR])
                   + if kept then [] else if undone.RollbackRaised? then [undone.error] else undone.errors
  }

  /** The report on a transaction that did not commit: what its executor said. */
  ghost predicate FailureReported(q: ApplyReport, record: ProposalRecord, outcome: ApplyOutcome, transactionId: string,
                                  decisions: seq<PolicyReference>)
  {
    && q.proposalId == record.proposalId && q.transactionId == transactionId && !q.success
    && q.postReparse == NotRun && q.postBuild == NotRun && q.appliedAt.None? && q.policy == decisions
    && q.rollbackAttempted == (outcome.ApplyFinished? && outcome.rollbackAttempted)
    && q.rollbackSuccess == (if outcome.ApplyFinished? then outcome.rollbackSuccess else None)
    && q.errors == if outcome.ApplyRaised? then [outcome.error] else outcome.errors
  }

  /** The report of an apply whose transaction was run on this disk. */
  ghost predicate ApplyReported(q: ApplyReport, executor: Executor, disk: Disk, record: ProposalRecord,
                                diff: VerifiedDiff, world: ApplyWorld, transactionId: string, hash: string -> string)
    requires world.preflight.Decided? && world.consumed.Granted?
  {
    var decisions := [world.preflight.reference, world.consumed.reference];
    var (outcome, after) := executor.apply(disk, ProposalMutations(record.files), transactionId);
    if outcome.ApplyFinished? && outcome.committed then
      CommitReported(q, record, Captured(after.files, record.files, world.git, hash) == Some(diff),
                     Kept(record, diff, after.files, world, hash), executor.rollback(after, transactionId).0, world,
                     transactionId, decisions)
    else FailureReported(q, record, outcome, transactionId, decisions)
  }

  lemma CommitEnds(executor: Executor, disk: Disk, record: ProposalRecord, diff: VerifiedDiff, transactionId: string,
                   decisions: seq<PolicyReference>, world: ApplyWorld, hash: string -> string)
      returns (moves: seq<Change>, q: ApplyReport)
    ensures CommitChanges(executor, disk, record, diff, transactionId, BlankReport(record, transactionId), decisions,
                          world, hash)
      == moves + [RecordPolicy(decisions), RecordApply(q)]
    ensures forall i :: 0 <= i < |moves| ==> moves[i].Transition?
    ensures CommitReported(q, record, Captured(disk.files, record.files, world.git, hash) == Some(diff),
                           Kept(record, diff, disk.files, world, hash), executor.rollback(disk, transactionId).0,
                           world, transactionId, decisions)
  {
    hide Captured, AllMatch;
    var exact := Captured(disk.files, record.files, world.git, hash) == Some(diff);
    var checked := CheckedReport(record, BlankReport(record, transactionId), exact, world);
    var (outcome, after) := executor.rollback(disk, transactionId);
    if Kept(record, diff, disk.files, world, hash) {
      moves, q := KeepChanges(), checked.(success := true, appliedAt := Some(world.appliedAt), policy := decisions);
    } else {
      moves := [Transition(UndoneState(outcome, after.files, record, hash), UNDONE_REASON)];
      q := UndoneReport(checked, outcome).(policy := decisions);
    }
  }

  lemma ExecutionEnds(executor: Executor, disk: Disk, record: ProposalRecord, diff: VerifiedDiff, world: ApplyWorld,
                      transactionId: string, hash: string -> string)
      returns (moves: seq<Change>, q: ApplyReport)
    requires world.preflight.Decided? && world.consumed.Granted?
    ensures ExecuteChanges(executor, disk, record, diff, world, transactionId, ApplyDecisions(world), hash)
      == moves + [RecordPolicy(ApplyDecisions(world)), RecordApply(q)]
    ensures forall i :: 0 <= i < |moves| ==> moves[i].Transition?
    ensures ApplyReported(q, executor, disk, record, diff, world, transactionId, hash)
    ensures ApplyDecisions(world) == [world.preflight.reference, world.consumed.reference]
  {
    hide Captured, AllMatch, CommitChanges, CommitReported, ProposalMutations, Kept;
    var decisions := ApplyDecisions(world);
    assert decisions == [world.preflight.reference, world.consumed.reference];
    var (outcome, after) := Transacted(executor, disk, record, transactionId);
    if Committed(outcome) {
      moves, q := CommitEnds(executor, after, record, diff, transactionId, decisions, world, hash);
    } else {
      moves := [Transition(if AllMatch(after.files, record.files, false, hash) then Verified else ProposalState.Failed,
                           FAILED_CLOSED_REASON)];
      q := FailureReport(record, transactionId, outcome).(policy := decisions);
    }
  }

  /** An apply that answers has filed the report on its transaction, and the two decisions it was granted. */
  lemma ApplyFilesReport(storage: Storage, before: Run, disk: Disk, after: Run, diskAfter: Disk,
                         r: Result<ProposalRecord, RunError>, executor: Executor, record: ProposalRecord,
                         diff: VerifiedDiff, world: ApplyWorld, transactionId: string)
    requires CheckedOutcome(storage, before, disk, after, diskAfter, r, executor, record, diff, world, transactionId)
    requires before.history != [] && world.preflight.Decided? && r.Ok?
    ensures after.history != [] && world.consumed.Granted?
    ensures var filed, last := after.history[|after.history| - 1], before.history[|before.history| - 1];
      && filed.apply.Some?
      && ApplyReported(filed.apply.value, executor, disk, record, diff, world, transactionId, storage.codec.hash)
      && filed.policy == last.policy + [world.preflight.reference, world.consumed.reference]
  {
    hide Play, GoThrough, ExecuteChanges, ApplyReported, Survives, DiskAfter, ApplyDecisions, Started;
    var moves, q := ExecutionEnds(executor, disk, record, diff, world, transactionId, storage.codec.hash);
    var start := StartChanges(world, transactionId, ApplyDecisions(world));
    var ends := [RecordPolicy(ApplyDecisions(world)), RecordApply(q)];
    assert start + (moves + ends) == (start + moves) + ends;
    PlayFiles(storage, before, start + moves, ApplyDecisions(world), RecordApply(q));
  }

  /** What an apply that answers has left in the record. */
  ghost predicate ApplyFiled(filed: ProposalRecord, was: ProposalRecord, executor: Executor, disk: Disk,
                             world: ApplyWorld, transactionId: string, hash: string -> string)
  {
    && was.verifiedDiff.Some? && world.preflight.Decided? && world.consumed.Granted?
    && filed.apply.Some?
    && ApplyReported(filed.apply.value, executor, disk, was, was.verifiedDiff.value, world, transactionId, hash)
    && filed.policy == was.policy + [world.preflight.reference, world.consumed.reference]
  }

  /** What the executor is asked to do fits the files, one mutation for each of the proposal's files. */
  lemma ReadyFits(history: seq<ProposalRecord>, files: Files, options: Options, world: ApplyWorld,
                  hash: string -> string)
    requires history != [] && MayApply(history, files, options, world, hash)
    requires BasesKept(history[|history| - 1].files)
    ensures var record := history[|history| - 1];
      && Proposes(ProposalMutations(record.files), record.files)
      && Applicable(files, ProposalMutations(record.files))
  {
    hide *;
    MayApplyFacts(history, files, options, world, hash);
    ApplicableIffBase(files, history[|history| - 1].files);
  }

  /** Everything an apply asks of the store. */
  ghost function ApplyChanges(history: seq<ProposalRecord>, executor: Executor, disk: Disk, options: Options,
                              world: ApplyWorld, transactionId: string, hash: string -> string): seq<Change>
    requires history != []
  {
    var record := history[|history| - 1];
    if !MayApply(history, disk.files, options, world, hash) then ExpiryChanges(history, world.now)
    else
      MayApplyFacts(history, disk.files, options, world, hash);
      CheckedChanges(executor, disk, record, record.verifiedDiff.value, world, transactionId, hash)
  }

  /** Exactly what an apply does to the record and to the disk, and when it answers. */
  ghost predicate ApplyOutcome(storage: Storage, before: Run, disk: Disk, after: Run, diskAfter: Disk,
                               r: Result<ProposalRecord, RunError>, executor: Executor, options: Options,
                               world: ApplyWorld, transactionId: string)
    requires before.history != []
  {
    var record, hash := before.history[|before.history| - 1], storage.codec.hash;
    && after == Play(storage, before, ApplyChanges(before.history, executor, disk, options, world, transactionId, hash))
    && if MayApply(before.history, disk.files, options, world, hash) then
         && record.verifiedDiff.Some?
         && CheckedOutcome(storage, before, disk, after, diskAfter, r, executor, record, record.verifiedDiff.value,
                           world, transactionId)
       else r.Err? && diskAfter == disk
  }

  /**
   `apply_verified_proposal_with_transaction_id`. However the executor behaves and wherever a store
   write fails, a state the call has written is true of the files; from a verified proposal no illegal
   transition is requested; and success is filed exactly for a transaction that committed and survived
   its checks.
   */
  method ApplyVerifiedProposal(store: ProposalStore, ws: Workspace, executor: Executor, options: Options,
                               world: ApplyWorld, transactionId: string)
      returns (r: Result<ProposalRecord, RunError>)
    requires store.Valid() && AllOk(store.history)
    modifies store, ws
    ensures store.Valid() && AllOk(store.history) && old(store.history) <= store.history
    ensures ApplyOutcome(store.storage, old(store.Now()), old(ws.disk), store.Now(), ws.disk, r, executor, options,
                         world, transactionId)
    ensures SameProposal(old(store.Last()), store.Last())
    ensures old(store.Last()).state == Verified ==> store.illegal == old(store.illegal)
    ensures store.history != old(store.history)
      ==> store.Last().state in APPLY_ENDS && Truthful(store.Last(), ws.disk.files)
    ensures store.history == old(store.history) ==> r.Err? && ws.disk == old(ws.disk)
    ensures store.history != old(store.history) ==>
      old(store.Last()).state == Verified || IsExpired(old(store.Last()), world.now)
    ensures r.Ok? ==> r.value == store.Last() && r.value.state in {Verified, ProposalState.Failed, RollbackAvailable}
    ensures store.Last().state == RollbackAvailable && store.history != old(store.history) ==>
      var (outcome, after) := Transacted(executor, old(ws.disk), old(store.Last()), transactionId);
      Committed(outcome) && ws.disk == after
    ensures r.Ok? ==> ApplyFiled(r.value, old(store.Last()), executor, old(ws.disk), world, transactionId,
                                 store.storage.codec.hash)
    ensures r.Ok? && r.value.state == RollbackAvailable ==>
      r.value.apply.Some? && r.value.apply.value.success && r.value.apply.value.transactionId == transactionId
  {
    hide AllOk, Good, SameReports, SameProposal, Matches, AllMatch, CanTransitionTo, Truthful, CheckedChanges,
         ApplyReported, Survives, DiskAfter, Started, Allowed, Attempt, Play, GoThrough, Transacted, ApplyReady,
         IsExpired;
    ApplyEnds();
    SameAsItself(store.Last());
    ghost var before := store.Now();
    PlayNothing(store.storage, before);
    PlayGrows(store.storage, before, ExpiryChanges(before.history, world.now));
    var expired := ExpireFirst(store, world.now);
    if store.history != old(store.history) {
      SameAsItself(store.Last());
      TruthfulAt(store.Last(), store.Last(), ws.disk.files);
    }
    if expired.Err? {
      return Err(StoreFailed(expired.error));
    }
    var record := expired.value;
    SamePlanAndFiles(old(store.Last()), record);
    var checked := CheckApply(record, ws.disk.files, options, world, store.storage.codec.hash);
    if checked.Err? {
      return Err(checked.error);
    }
    ApplyReadyFacts(record, ws.disk.files, options, world, store.storage.codec.hash);
    assert store.history == before.history && ExpiryChanges(before.history, world.now) == [];
    ghost var disk := ws.disk;
    r := ApplyChecked(store, ws, executor, record, checked.value, world, transactionId);
    if r.Ok? {
      ApplyFilesReport(store.storage, before, disk, store.Now(), ws.disk, r, executor, record, checked.value, world,
                       transactionId);
    }
    SameThrough(old(store.Last()), record, store.Last());
  }

  // ---- Success ----

  /** The six updates of an apply that succeeds. */
  function SuccessChanges(record: ProposalRecord, world: ApplyWorld, transactionId: string): seq<Change> {
    var report := CheckedReport(record, BlankReport(record, transactionId), true, world);
    [Transition(ApprovalPending, APPROVAL_REASON), Transition(Applying, APPLYING_REASON + transactionId)]
    + (KeepChanges()
       + OutcomeChanges(ApplyDecisions(world), report.(success := true, appliedAt := Some(world.appliedAt))))
  }

  lemma SurvivingChanges(executor: Executor, disk: Disk, record: ProposalRecord, diff: VerifiedDiff,
                         world: ApplyWorld, transactionId: string, hash: string -> string)
    requires ApplyApproved(world) && Survives(executor, disk, record, diff, world, transactionId, hash)
    ensures CheckedChanges(executor, disk, record, diff, world, transactionId, hash)
      == SuccessChanges(record, world, transactionId)
    ensures DiskAfter(executor, disk, record, diff, world, transactionId, hash)
      == Transacted(executor, disk, record, transactionId).1
    ensures Committed(Transacted(executor, disk, record, transactionId).0)
    ensures AllMatch(Transacted(executor, disk, record, transactionId).1.files, record.files, true, hash)
  {
    hide AllMatch, Transacted, ApplyDecisions, OutcomeChanges, KeepChanges, CheckedReport, BlankReport;
  }

  lemma ApprovalReason()
    ensures ReasonOk(APPROVAL_REASON)
  {
    ShortReason(APPROVAL_REASON);
  }

  lemma KeepReasons()
    ensures ReasonOk(APPLIED_REASON) && ReasonOk(AVAILABLE_REASON)
  {
    ShortReason(APPLIED_REASON);
    ShortReason(AVAILABLE_REASON);
  }

  lemma SuccessIsLegal(record: ProposalRecord, world: ApplyWorld, transactionId: string)
    requires ReasonOk(APPLYING_REASON + transactionId)
    ensures var changes := SuccessChanges(record, world, transactionId);
      && |changes| == 6 && Legal(Verified, record.proposalId, changes) && Rooms(changes) == |ApplyDecisions(world)|
      && forall i :: 0 <= i < |changes| ==> !changes[i].RecordVerification?
  {
    ApprovalReason();
    KeepReasons();
    ApplyEdges();
    hide ReasonOk, ApplyDecisions, CanTransitionTo, Legal, Rooms;
    var id := record.proposalId;
    var changes := SuccessChanges(record, world, transactionId);
    var six := [changes[5]] + [];
    var five := [changes[4]] + six;
    var four := [changes[3]] + five;
    var three := [changes[2]] + four;
    var two := [changes[1]] + three;
    assert changes == [changes[0]] + two;
    LegalNothing(RollbackAvailable, id);
    LegalFirst(RollbackAvailable, id, changes[5], []);
    LegalFirst(RollbackAvailable, id, changes[4], six);
    LegalFirst(Applied, id, changes[3], five);
    LegalFirst(Applying, id, changes[2], four);
    LegalFirst(ApprovalPending, id, changes[1], three);
    LegalFirst(Verified, id, changes[0], two);
  }

  /** What the outcome says of a proposal that passed its checks. */
  lemma CheckedPart(storage: Storage, before: Run, disk: Disk, after: Run, diskAfter: Disk,
                    r: Result<ProposalRecord, RunError>, executor: Executor, options: Options, world: ApplyWorld,
                    transactionId: string)
    requires before.history != []
    requires ApplyOutcome(storage, before, disk, after, diskAfter, r, executor, options, world, transactionId)
    requires MayApply(before.history, disk.files, options, world, storage.codec.hash)
    ensures var record := before.history[|before.history| - 1];
      && record.state == Verified && record.verifiedDiff.Some?
      && CheckedOutcome(storage, before, disk, after, diskAfter, r, executor, record, record.verifiedDiff.value, world,
                        transactionId)
  {
    hide CheckedOutcome, AllMatch, Drift, ExpiryChanges;
  }

  lemma SettledByPlay(storage: Storage, before: Run, disk: Disk, after: Run, diskAfter: Disk,
                      r: Result<ProposalRecord, RunError>, executor: Executor, record: ProposalRecord,
                      diff: VerifiedDiff, world: ApplyWorld, transactionId: string)
    requires CheckedOutcome(storage, before, disk, after, diskAfter, r, executor, record, diff, world, transactionId)
    requires ApplyApproved(world) && Survives(executor, disk, record, diff, world, transactionId, storage.codec.hash)
    requires var changes := CheckedChanges(executor, disk, record, diff, world, transactionId, storage.codec.hash);
      GoThrough(storage, before, changes)
    ensures r.Ok? && r.value.state == RollbackAvailable
    ensures diskAfter == DiskAfter(executor, disk, record, diff, world, transactionId, storage.codec.hash)
    ensures after
      == Play(storage, before, CheckedChanges(executor, disk, record, diff, world, transactionId, storage.codec.hash))
  {
    var hash := storage.codec.hash;
    var first := StartChanges(world, transactionId, ApplyDecisions(world));
    var rest := ExecuteChanges(executor, disk, record, diff, world, transactionId, ApplyDecisions(world), hash);
    PlayConcat(storage, before, first, rest);
    assert Committed(Transacted(executor, disk, record, transactionId).0);
    hide StartChanges, ExecuteChanges, Transacted, Survives, DiskAfter, Play, GoThrough;
  }

  /** The proposal passes the checks and is approved, and its transaction commits and survives its own. */
  ghost predicate ApplyGoesWell(storage: Storage, history: seq<ProposalRecord>, disk: Disk, executor: Executor,
                                options: Options, world: ApplyWorld, transactionId: string)
  {
    && history != [] && MayApply(history, disk.files, options, world, storage.codec.hash) && ApplyApproved(world)
    && ReasonOk(APPLYING_REASON + transactionId)
    && var record := history[|history| - 1];
    && record.verifiedDiff.Some?
    && Survives(executor, disk, record, record.verifiedDiff.value, world, transactionId, storage.codec.hash)
  }

  lemma WellChecked(storage: Storage, before: Run, disk: Disk, after: Run, diskAfter: Disk,
                    r: Result<ProposalRecord, RunError>, executor: Executor, options: Options, world: ApplyWorld,
                    transactionId: string)
    requires ApplyGoesWell(storage, before.history, disk, executor, options, world, transactionId)
    requires ApplyOutcome(storage, before, disk, after, diskAfter, r, executor, options, world, transactionId)
    ensures var record := before.history[|before.history| - 1];
      && record.state == Verified && record.verifiedDiff.Some? && ApplyApproved(world)
      && ReasonOk(APPLYING_REASON + transactionId)
      && Survives(executor, disk, record, record.verifiedDiff.value, world, transactionId, storage.codec.hash)
      && CheckedOutcome(storage, before, disk, after, diskAfter, r, executor, record, record.verifiedDiff.value, world,
                        transactionId)
  {
    hide MayApply, ReasonOk, ApplyApproved, Survives, ApplyOutcome, CheckedOutcome;
    CheckedPart(storage, before, disk, after, diskAfter, r, executor, options, world, transactionId);
  }

  /**
   When no store write fails, such a call answers with `RollbackAvailable`, and the disk is as the
   transaction left it.
   */
  lemma ApplySucceeds(storage: Storage, before: Run, disk: Disk, after: Run, diskAfter: Disk,
                      r: Result<ProposalRecord, RunError>, executor: Executor, options: Options, world: ApplyWorld,
                      transactionId: string, record: ProposalRecord, n: nat, room: nat)
    requires before.history != [] && record == before.history[|before.history| - 1]
    requires ApplyGoesWell(storage, before.history, disk, executor, options, world, transactionId)
    requires ApplyOutcome(storage, before, disk, after, diskAfter, r, executor, options, world, transactionId)
    requires Reliable(storage, before, 6 + n, |ApplyDecisions(world)| + room)
    ensures r.Ok? && r.value.state == RollbackAvailable
    ensures diskAfter == Transacted(executor, disk, record, transactionId).1
    ensures AllMatch(diskAfter.files, record.files, true, storage.codec.hash)
    ensures Reliable(storage, after, n, room) && after.history != [] && |before.history| < |after.history|
    ensures after.history[|after.history| - 1].verifiedDiff == record.verifiedDiff
  {
    hide *;
    WellChecked(storage, before, disk, after, diskAfter, r, executor, options, world, transactionId);
    CheckedSucceeds(storage, before, disk, after, diskAfter, r, executor, record, record.verifiedDiff.value, world,
                    transactionId, n, room);
  }

  lemma CheckedSucceeds(storage: Storage, before: Run, disk: Disk, after: Run, diskAfter: Disk,
                        r: Result<ProposalRecord, RunError>, executor: Executor, record: ProposalRecord,
                        diff: VerifiedDiff, world: ApplyWorld, transactionId: string, n: nat, room: nat)
    requires CheckedOutcome(storage, before, disk, after, diskAfter, r, executor, record, diff, world, transactionId)
    requires ApplyApproved(world) && Survives(executor, disk, record, diff, world, transactionId, storage.codec.hash)
    requires ReasonOk(APPLYING_REASON + transactionId)
    requires Reliable(storage, before, 6 + n, |ApplyDecisions(world)| + room)
    requires before.history != [] && record == before.history[|before.history| - 1] && record.state == Verified
    ensures r.Ok? && r.value.state == RollbackAvailable
    ensures diskAfter == Transacted(executor, disk, record, transactionId).1
    ensures AllMatch(diskAfter.files, record.files, true, storage.codec.hash)
    ensures Reliable(storage, after, n, room) && after.history != [] && |before.history| < |after.history|
    ensures after.history[|after.history| - 1].verifiedDiff == record.verifiedDiff
  {
    hide *;
    SurvivingChanges(executor, disk, record, diff, world, transactionId, storage.codec.hash);
    SuccessIsLegal(record, world, transactionId);
    var changes := SuccessChanges(record, world, transactionId);
    ReliableScript(storage, before, changes, n, room);
    PlayKeepsDiff(storage, before, changes);
    PlayGrows(storage, before, changes);
    SettledByPlay(storage, before, disk, after, diskAfter, r, executor, record, diff, world, transactionId);
  }
}
