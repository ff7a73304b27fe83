/** Undoing an applied proposal. */
module Rollback {
  import opened Wrappers
  import opened EditSchema
  import opened ProposalSchema
  import opened Records
  import opened RecordFiles
  import opened StoreRuns
  import opened Store
  import opened Transactions
  import opened Lifecycle
  import opened Apply

  /** The texts that the records keep of what happened. */
  const ROLLING_BACK_REASON := "rolling back exact transaction "
  const STILL_APPLIED_REASON := "rollback approval was not consumed; workspace remained applied"
  const ROLLED_BACK_REASON := "transaction rolled back"
  const POSTCONDITION_ERROR := "rollback completed but source postconditions did not match the base proposal"
  const RECOVERABLE_REASON := "transaction rollback failed " + "and remains recoverable"

  datatype RollbackWorld = RollbackWorld(
    observed: Option<Observed>,
    git: Option<VerifiedDiff>,
    preflight: Preflight,
    approvalId: Option<string>,
    consumed: Authorization,
    reparse: StageStatus,
    observedAfter: Option<Observed>,
    rolledBackAt: nat)

  /** The states in which a call leaves a proposal it has changed. */
  predicate RollbackEnd(s: ProposalState) {
    s in {RollingBack, RollbackAvailable, RolledBack, ProposalState.Failed}
  }

  lemma RollbackEdges()
    ensures CanTransitionTo(Applied, RollingBack) && CanTransitionTo(RollbackAvailable, RollingBack)
    ensures CanTransitionTo(RollingBack, RollbackAvailable) && CanTransitionTo(RollingBack, RolledBack)
    ensures CanTransitionTo(RollingBack, ProposalState.Failed)
    ensures RollbackEnd(RollingBack) && RollbackEnd(RollbackAvailable) && RollbackEnd(RolledBack)
    ensures RollbackEnd(ProposalState.Failed)
  {
  }

  /** What a rollback asks for before it writes anything. */
  ghost predicate RollbackReady(record: ProposalRecord, files: Files, options: Options, world: RollbackWorld,
                                hash: string -> string)
  {
    && record.state in {RollbackAvailable, Applied} && record.workspaceId == options.workspaceId
    && record.apply.Some? && record.apply.value.success && record.verifiedDiff.Some?
    && world.observed.Some? && world.observed.value.head == record.plan.baseHead
    && world.observed.value.rootHash == record.workspaceRootHash
    && AllMatch(files, record.files, true, hash) && world.git == record.verifiedDiff
    && world.preflight.Decided? && world.preflight.requiresApproval && world.approvalId.Some?
  }

  lemma RollbackReadyFacts(record: ProposalRecord, files: Files, options: Options, world: RollbackWorld,
                           hash: string -> string)
    requires RollbackReady(record, files, options, world, hash)
    ensures record.state in {RollbackAvailable, Applied} && Matches(files, record.files, true)
    ensures record.apply.Some? && record.apply.value.success && world.preflight.Decided?
  {
  }

  /** The checks before anything is written; the identifier of the transaction to undo. */
  method CheckRollback(record: ProposalRecord, files: Files, options: Options, world: RollbackWorld,
                       hash: string -> string)
      returns (r: Result<string, RunError>)
    ensures r.Ok? <==> RollbackReady(record, files, options, world, hash)
    ensures r.Ok? ==> record.apply.Some? && r.value == record.apply.value.transactionId
  {
    hide AllMatch, Matches;
    if record.state !in {RollbackAvailable, Applied} || record.workspaceId != options.workspaceId {
      return Err(NotApplicable);
    }
    if record.apply.None? || !record.apply.value.success {
      return Err(NoReport);
    }
    if record.verifiedDiff.None? {
      return Err(NoStoredDiff);
    }
    if world.observed.None? || world.observed.value.head != record.plan.baseHead
       || world.observed.value.rootHash != record.workspaceRootHash
    {
      return Err(WorkspaceDrifted);
    }
    var proposed := VerifySnapshotsAt(files, record.files, true, hash);
    if !proposed {
      return Err(SnapshotMismatch);
    }
    var current := CaptureVerifiedDiff(files, record.files, world.git, hash);
    if current != record.verifiedDiff {
      return Err(DiffMismatch);
    }
    if world.preflight.CheckFailed? || !world.preflight.requiresApproval {
      return Err(ApprovalNotRequired);
    }
    if world.approvalId.None? {
      return Err(ApprovalNotIssued);
    }
    return Ok(record.apply.value.transactionId);
  }

  function StartRollbackChanges(world: RollbackWorld, transactionId: string,
                                decisions: seq<PolicyReference>): seq<Change> {
    [Transition(RollingBack, ROLLING_BACK_REASON + transactionId)]
    + if world.consumed.Granted? then []
      else [Transition(RollbackAvailable, STILL_APPLIED_REASON), RecordPolicy(decisions)]
  }

  /** Start rolling back and consume the approval; without it the proposal stays applied. */
  method StartRollback(store: ProposalStore, record: ProposalRecord, world: RollbackWorld, transactionId: string,
                       decisions: seq<PolicyReference>)
      returns (r: Result<(), RunError>)
    requires store.Valid() && AllOk(store.history) && store.Last() == record
    requires record.state in {RollbackAvailable, Applied}
    modifies store
    ensures store.Valid() && AllOk(store.history) && old(store.history) <= store.history
    ensures store.illegal == old(store.illegal)
    ensures var changes := StartRollbackChanges(world, transactionId, decisions);
      && store.Now() == old(Play(store.storage, store.Now(), changes))
      && (r.Ok? <==> world.consumed.Granted? && old(GoThrough(store.storage, store.Now(), changes)))
    ensures SameProposal(record, store.Last())
    ensures store.history != old(store.history) ==>
      && RollbackEnd(store.Last().state) && store.Last().state != RolledBack
      && (r.Err? ==> !world.consumed.Granted?)
    ensures r.Ok? ==> store.Last().state == RollingBack && |store.history| > |old(store.history)|
  {
    hide AllOk, Good, SameReports, SameProposal, CanTransitionTo, Allowed, Attempt, Play, GoThrough, RollbackEnd;
    RollbackEdges();
    SameAsItself(record);
    var start := Transition(RollingBack, ROLLING_BACK_REASON + transactionId);
    var back := Transition(RollbackAvailable, STILL_APPLIED_REASON);
    PlayFirst(store.storage, store.Now(), start, []);
    PlayFirst(store.storage, store.Now(), start, [back, RecordPolicy(decisions)]);
    var rolling := Move(store, RollingBack, ROLLING_BACK_REASON + transactionId);
    PlayNothing(store.storage, store.Now());
    PlayTwo(store.storage, store.Now(), back, RecordPolicy(decisions));
    if rolling.Err? {
      return Err(StoreFailed(rolling.error));
    }
    if world.consumed.Granted? {
      return Ok(());
    }
    var returned := Move(store, RollbackAvailable, STILL_APPLIED_REASON);
    if returned.Err? {
      return Err(StoreFailed(returned.error));
    }
    SameThrough(record, rolling.value, returned.value);
    var noted := Note(store, decisions);
    if noted.Err? {
      return Err(StoreFailed(noted.error));
    }
    SameThrough(record, returned.value, noted.value);
    return Err(ApprovalNotConsumed);
  }

  // ---- After the executor rolled back ----

  /** Two of the checks behind a rollback return without a transition, which leaves `RollingBack` behind. */
  ghost predicate Stuck(record: ProposalRecord, files: Files, world: RollbackWorld, hash: string -> string) {
    !AllMatch(files, record.files, false, hash) || world.observedAfter.None?
  }

  /** The rolled back files parse, and the repository is as the plan found it. */
  ghost predicate Sound(record: ProposalRecord, world: RollbackWorld) {
    && world.reparse == Passed && world.observedAfter.Some?
    && var after := world.observedAfter.value;
    after.clean && after.head == record.plan.baseHead && after.workingTreeDigest == record.plan.workingTreeDigest
  }

  ghost function SettledReport(report: RollbackReport, record: ProposalRecord, world: RollbackWorld): RollbackReport {
    report.(
      success := Sound(record, world),
      reparse := world.reparse,
      rolledBackAt := if Sound(record, world) then Some(world.rolledBackAt) else None,
      errors := if Sound(record, world) then [] else [POSTCONDITION_ERROR])
  }

  ghost function SettleChange(record: ProposalRecord, world: RollbackWorld): Change {
    Transition(if Sound(record, world) then RolledBack else ProposalState.Failed, ROLLED_BACK_REASON)
  }

  /**
   The executor rolled back: the files must be the base again, parse, and leave the repository as the
   plan found it.
   */
  method AfterUndo(store: ProposalStore, files: Files, record: ProposalRecord, world: RollbackWorld,
                   report: RollbackReport, hash: string -> string)
      returns (r: Result<RollbackReport, RunError>)
    requires store.Valid() && AllOk(store.history) && store.Last().state == RollingBack
    requires SameProposal(record, store.Last())
    modifies store
    ensures store.Valid() && AllOk(store.history) && old(store.history) <= store.history
    ensures store.illegal == old(store.illegal)
    ensures Stuck(record, files, world, hash) ==> r.Err? && store.Now() == old(store.Now())
    ensures !Stuck(record, files, world, hash) ==>
      && store.Now() == old(Attempt(store.storage, store.Now(), SettleChange(record, world)))
      && (r.Ok? <==> old(Allowed(store.storage, store.Now(), SettleChange(record, world))))
    ensures r.Ok? ==> r.value == SettledReport(report, record, world)
    ensures r.Ok? ==> store.Last().state == (if Sound(record, world) then RolledBack else ProposalState.Failed)
    ensures SameProposal(record, store.Last()) && RollbackEnd(store.Last().state)
    ensures store.Last().state == RolledBack ==> Matches(files, store.Last().files, false)
    ensures store.Last().state != RollbackAvailable
  {
    hide AllOk, Good, SameReports, SameProposal, CanTransitionTo, Allowed, Attempt, RollbackEnd, Matches, AllMatch;
    RollbackEdges();
    var base := VerifySnapshotsAt(files, record.files, false, hash);
    if !base {
      return Err(SnapshotMismatch);
    }
    if world.observedAfter.None? {
      return Err(NotObserved);
    }
    var after := world.observedAfter.value;
    var sound := world.reparse == Passed && after.clean && after.head == record.plan.baseHead
                 && after.workingTreeDigest == record.plan.workingTreeDigest;
    var moved := Move(store, if sound then RolledBack else ProposalState.Failed, ROLLED_BACK_REASON);
    if moved.Err? {
      return Err(StoreFailed(moved.error));
    }
    SameThrough(record, old(store.Last()), moved.value);
    SamePlanAndFiles(record, moved.value);
    return Ok(report.(
      success := sound,
      reparse := world.reparse,
      rolledBackAt := if sound then Some(world.rolledBackAt) else None,
      errors := if sound then [] else [POSTCONDITION_ERROR]));
  }

  function RollbackOutcomeChanges(decisions: seq<PolicyReference>, report: RollbackReport): seq<Change> {
    [RecordPolicy(decisions), RecordRollback(report.(policy := decisions))]
  }

  method FileRollbackOutcome(store: ProposalStore, decisions: seq<PolicyReference>, report: RollbackReport)
      returns (r: Result<ProposalRecord, RunError>)
    requires store.Valid() && AllOk(store.history)
    modifies store
    ensures store.Valid() && AllOk(store.history) && old(store.history) <= store.history
    ensures store.illegal == old(store.illegal)
    ensures store.Now() == old(Play(store.storage, store.Now(), RollbackOutcomeChanges(decisions, report)))
    ensures r.Ok? <==> old(GoThrough(store.storage, store.Now(), RollbackOutcomeChanges(decisions, report)))
    ensures SameProposal(old(store.Last()), store.Last()) && store.Last().state == old(store.Last()).state
    ensures r.Ok? ==> r.value == store.Last()
  {
    hide AllOk, Good, SameReports, SameProposal, Allowed, Attempt, Play, GoThrough;
    SameAsItself(store.Last());
    PlayTwo(store.storage, store.Now(), RecordPolicy(decisions), RecordRollback(report.(policy := decisions)));
    var noted := Note(store, decisions);
    if noted.Err? {
      return Err(StoreFailed(noted.error));
    }
    var filed := FileRollback(store, report.(policy := decisions));
    if filed.Err? {
      return Err(StoreFailed(filed.error));
    }
    SameThrough(old(store.Last()), noted.value, filed.value);
    return Ok(filed.value);
  }

  // ---- The whole rollback ----

  function BlankRollback(record: ProposalRecord, transactionId: string): RollbackReport {
    RollbackReport(record.proposalId, transactionId, false, NotRun, [], None, [])
  }

  function FailedRollbackReport(report: RollbackReport, outcome: RollbackOutcome): RollbackReport {
    report.(errors := if outcome.RollbackFinished? then outcome.errors else [outcome.error])
  }

  /** What is filed once the executor has answered; nothing at all when the checks behind it get stuck. */
  ghost function UndoChanges(executor: Executor, disk: Disk, record: ProposalRecord, world: RollbackWorld,
                             transactionId: string, decisions: seq<PolicyReference>,
                             hash: string -> string): seq<Change>
  {
    var (outcome, after) := executor.rollback(disk, transactionId);
    var report := BlankRollback(record, transactionId);
    if !RolledBackBy(outcome) then
      [Transition(RollbackAvailable, RECOVERABLE_REASON)]
      + RollbackOutcomeChanges(decisions, FailedRollbackReport(report, outcome))
    else if Stuck(record, after.files, world, hash) then []
    else
      [SettleChange(record, world)] + RollbackOutcomeChanges(decisions, SettledReport(report, record, world))
  }

  ghost predicate Answers(executor: Executor, disk: Disk, record: ProposalRecord, world: RollbackWorld,
                          transactionId: string, hash: string -> string)
  {
    var (outcome, after) := executor.rollback(disk, transactionId);
    RolledBackBy(outcome) ==> !Stuck(record, after.files, world, hash)
  }

  /** Undo the transaction, and file what became of it. */
  method ExecuteRollback(store: ProposalStore, ws: Workspace, executor: Executor, record: ProposalRecord,
                         world: RollbackWorld, transactionId: string, decisions: seq<PolicyReference>,
                         hash: string -> string)
      returns (r: Result<ProposalRecord, RunError>)
    requires store.Valid() && AllOk(store.history) && store.Last().state == RollingBack
    requires SameProposal(record, store.Last())
    modifies store, ws
    ensures store.Valid() && AllOk(store.history) && old(store.history) <= store.history
    ensures store.illegal == old(store.illegal)
    ensures var changes := UndoChanges(executor, old(ws.disk), record, world, transactionId, decisions, hash);
      && store.Now() == old(Play(store.storage, store.Now(), changes))
      && (r.Ok? <==>
          && Answers(executor, old(ws.disk), record, world, transactionId, hash)
          && old(GoThrough(store.storage, store.Now(), changes)))
    ensures SameProposal(record, store.Last()) && RollbackEnd(store.Last().state)
    ensures ws.disk == executor.rollback(old(ws.disk), transactionId).1
    ensures store.Last().state == RolledBack ==>
      Matches(ws.disk.files, store.Last().files, false)
      && RolledBackBy(executor.rollback(old(ws.disk), transactionId).0)
    ensures store.Last().state == RollbackAvailable ==> !RolledBackBy(executor.rollback(old(ws.disk), transactionId).0)
    ensures r.Ok? ==> r.value == store.Last()
    ensures r.Ok? ==>
      r.value.state == if !RolledBackBy(executor.rollback(old(ws.disk), transactionId).0) then RollbackAvailable
                       else if Sound(record, world) then RolledBack else ProposalState.Failed
  {
    hide AllOk, Good, SameReports, SameProposal, CanTransitionTo, Allowed, Attempt, Play, GoThrough, RollbackEnd,
         Matches, AllMatch, Stuck, Sound, SettledReport, SettleChange, RollbackOutcomeChanges;
    RollbackEdges();
    ghost var before := store.Now();
    PlayNothing(store.storage, before);
    var (outcome, after) := executor.rollback(ws.disk, transactionId);
    ws.disk := after;
    var report := BlankRollback(record, transactionId);
    if RolledBackBy(outcome) {
      PlayFirst(store.storage, before, SettleChange(record, world),
                RollbackOutcomeChanges(decisions, SettledReport(report, record, world)));
      var undone := AfterUndo(store, ws.disk.files, record, world, report, hash);
      if undone.Err? {
        return Err(undone.error);
      }
      report := undone.value;
    } else {
      report := FailedRollbackReport(report, outcome);
      PlayFirst(store.storage, before, Transition(RollbackAvailable, RECOVERABLE_REASON),
                RollbackOutcomeChanges(decisions, report));
      var moved := Move(store, RollbackAvailable, RECOVERABLE_REASON);
      if moved.Err? {
        return Err(StoreFailed(moved.error));
      }
      SameThrough(record, old(store.Last()), moved.value);
    }
    ghost var settled := store.Last();
    r := FileRollbackOutcome(store, decisions, report);
    SameThrough(record, settled, store.Last());
    SamePlanAndFiles(settled, store.Last());
  }

  function RollbackDecisions(world: RollbackWorld): seq<PolicyReference> {
    (if world.preflight.Decided? then [world.preflight.reference] else []) + ReferencesOf(world.consumed)
  }

  /** The proposal can be read, and passes the checks. */
  ghost predicate MayRollBack(history: seq<ProposalRecord>, files: Files, options: Options, world: RollbackWorld,
                              hash: string -> string)
    requires history != []
  {
    |history| <= MAX_RECORD_GENERATIONS && RollbackReady(history[|history| - 1], files, options, world, hash)
  }

  /** Everything a rollback asks of the store once its checks are passed. */
  ghost function RollbackChanges(executor: Executor, disk: Disk, record: ProposalRecord, world: RollbackWorld,
                                 transactionId: string, hash: string -> string): seq<Change>
  {
    StartRollbackChanges(world, transactionId, RollbackDecisions(world))
    + if world.consumed.Granted?
      then UndoChanges(executor, disk, record, world, transactionId, RollbackDecisions(world), hash)
      else []
  }

  /** What a rollback that passed its checks does to the record and to the disk, and when it answers. */
  ghost predicate CheckedRollback(storage: Storage, before: Run, disk: Disk, after: Run, diskAfter: Disk,
                                  r: Result<ProposalRecord, RunError>, executor: Executor, record: ProposalRecord,
                                  world: RollbackWorld, transactionId: string)
  {
    var (outcome, undone) := executor.rollback(disk, transactionId);
    && (r.Ok? ==>
          r.value.state == if !RolledBackBy(outcome) then RollbackAvailable
                           else if Sound(record, world) then RolledBack else ProposalState.Failed)
    && var changes := RollbackChanges(executor, disk, record, world, transactionId, storage.codec.hash);
    var started := StartRollbackChanges(world, transactionId, RollbackDecisions(world));
    && after == Play(storage, before, changes)
    && (r.Ok? <==>
          && world.consumed.Granted? && GoThrough(storage, before, changes)
          && Answers(executor, disk, record, world, transactionId, storage.codec.hash))
    && diskAfter == if world.consumed.Granted? && GoThrough(storage, before, started) then undone else disk
  }

  /** Exactly what a rollback does to the record and to the disk, and when it answers. */
  ghost predicate RollbackOutcomeIs(storage: Storage, before: Run, disk: Disk, after: Run, diskAfter: Disk,
                                    r: Result<ProposalRecord, RunError>, executor: Executor, options: Options,
                                    world: RollbackWorld)
    requires before.history != []
  {
    var record := before.history[|before.history| - 1];
    if MayRollBack(before.history, disk.files, options, world, storage.codec.hash) then
      && record.apply.Some?
      && CheckedRollback(storage, before, disk, after, diskAfter, r, executor, record, world,
                         record.apply.value.transactionId)
    else
      && after == before && diskAfter == disk
      && (r.Ok? <==> |before.history| <= MAX_RECORD_GENERATIONS && record.state == RolledBack)
  }

  // ---- What the report says ----

  /** The report on an executed rollback: whether the workspace is the base again, and otherwise why not. */
  ghost predicate RollbackReported(q: RollbackReport, executor: Executor, disk: Disk, record: ProposalRecord,
                                   world: RollbackWorld, transactionId: string)
    requires world.preflight.Decided? && world.consumed.Granted?
  {
    var outcome := executor.rollback(disk, transactionId).0;
    var undone := outcome.RollbackFinished? && outcome.rolledBack;
    && q.proposalId == record.proposalId && q.transactionId == transactionId
    && q.success == (undone && Sound(record, world))
    && q.reparse == (if undone then world.reparse else NotRun)
    && q.policy == [world.preflight.reference, world.consumed.reference]
    && q.rolledBackAt == (if q.success then Some(world.rolledBackAt) else None)
    && q.errors == if undone then (if q.success then [] else [POSTCONDITION_ERROR])
                   else if outcome.RollbackRaised? then [outcome.error] else outcome.errors
  }

  lemma UndoEnds(executor: Executor, disk: Disk, record: ProposalRecord, world: RollbackWorld, transactionId: string,
                 hash: string -> string)
      returns (moves: seq<Change>, q: RollbackReport)
    requires world.preflight.Decided? && world.consumed.Granted?
    requires Answers(executor, disk, record, world, transactionId, hash)
    ensures RollbackChanges(executor, disk, record, world, transactionId, hash)
      == moves + [RecordPolicy(RollbackDecisions(world)), RecordRollback(q)]
    ensures forall i :: 0 <= i < |moves| ==> moves[i].Transition?
    ensures RollbackReported(q, executor, disk, record, world, transactionId)
    ensures RollbackDecisions(world) == [world.preflight.reference, world.consumed.reference]
  {
    hide Stuck, Sound;
    var decisions := RollbackDecisions(world);
    assert decisions == [world.preflight.reference, world.consumed.reference];
    var outcome := executor.rollback(disk, transactionId).0;
    var report := BlankRollback(record, transactionId);
    var start := Transition(RollingBack, ROLLING_BACK_REASON + transactionId);
    if RolledBackBy(outcome) {
      moves := [start, SettleChange(record, world)];
      q := SettledReport(report, record, world).(policy := decisions);
    } else {
      moves := [start, Transition(RollbackAvailable, RECOVERABLE_REASON)];
      q := FailedRollbackReport(report, outcome).(policy := decisions);
    }
  }

  /** What a rollback that answers has left in the record. */
  ghost predicate RollbackFiled(filed: ProposalRecord, was: ProposalRecord, executor: Executor, disk: Disk,
                                world: RollbackWorld, transactionId: string)
  {
    && world.preflight.Decided? && world.consumed.Granted? && filed.rollback.Some?
    && RollbackReported(filed.rollback.value, executor, disk, was, world, transactionId)
    && filed.policy == was.policy + [world.preflight.reference, world.consumed.reference]
  }

  lemma RollbackFilesReport(storage: Storage, before: Run, disk: Disk, after: Run, diskAfter: Disk,
                            r: Result<ProposalRecord, RunError>, executor: Executor, record: ProposalRecord,
                            world: RollbackWorld, transactionId: string)
    requires CheckedRollback(storage, before, disk, after, diskAfter, r, executor, record, world, transactionId)
    requires before.history != [] && record == before.history[|before.history| - 1]
    requires world.preflight.Decided? && r.Ok?
    ensures after.history != []
    ensures RollbackFiled(after.history[|after.history| - 1], record, executor, disk, world, transactionId)
  {
    hide Play, GoThrough, RollbackChanges, RollbackReported, Answers, RollbackDecisions, StartRollbackChanges, Sound;
    var moves, q := UndoEnds(executor, disk, record, world, transactionId, storage.codec.hash);
    PlayFiles(storage, before, moves, RollbackDecisions(world), RecordRollback(q));
  }

  /** From the passed checks on. */
  method RollBackChecked(store: ProposalStore, ws: Workspace, executor: Executor, record: ProposalRecord,
                         world: RollbackWorld, transactionId: string)
      returns (r: Result<ProposalRecord, RunError>)
    requires store.Valid() && AllOk(store.history) && store.Last() == record
    requires record.state in {RollbackAvailable, Applied} && Matches(ws.disk.files, record.files, true)
    requires world.preflight.Decided?
    modifies store, ws
    ensures store.Valid() && AllOk(store.history) && old(store.history) <= store.history
    ensures store.illegal == old(store.illegal)
    ensures CheckedRollback(store.storage, old(store.Now()), old(ws.disk), store.Now(), ws.disk, r, executor, record,
                            world, transactionId)
    ensures SameProposal(record, store.Last())
    ensures r.Ok? ==> r.value == store.Last()
    ensures r.Ok? ==> RollbackFiled(r.value, record, executor, old(ws.disk), world, transactionId)
    ensures store.history == old(store.history) ==> r.Err? && ws.disk == old(ws.disk)
    ensures store.history != old(store.history) ==> RollbackEnd(store.Last().state)
    ensures store.history != old(store.history) && store.Last().state == RolledBack ==>
      && Matches(ws.disk.files, store.Last().files, false) && world.consumed.Granted?
      && RolledBackBy(executor.rollback(old(ws.disk), transactionId).0)
    ensures store.history != old(store.history) ==>
      && ws.disk == (if world.consumed.Granted? then executor.rollback(old(ws.disk), transactionId).1 else old(ws.disk))
      && (store.Last().state == RollbackAvailable && world.consumed.Granted? ==>
            !RolledBackBy(executor.rollback(old(ws.disk), transactionId).0))
  {
    hide AllOk, Good, SameReports, SameProposal, CanTransitionTo, Allowed, Attempt, Play, GoThrough, RollbackEnd,
         Matches, UndoChanges, Answers, Sound, StartRollbackChanges, RollbackFiled;
    ghost var disk := ws.disk;
    ghost var before, hash := store.Now(), store.storage.codec.hash;
    var decisions := RollbackDecisions(world);
    ghost var first := StartRollbackChanges(world, transactionId, decisions);
    ghost var rest := if world.consumed.Granted?
      then UndoChanges(executor, ws.disk, record, world, transactionId, decisions, hash) else [];
    PlayConcat(store.storage, before, first, rest);
    var started := StartRollback(store, record, world, transactionId, decisions);
    PlayNothing(store.storage, store.Now());
    if started.Err? {
      return Err(started.error);
    }
    r := ExecuteRollback(store, ws, executor, record, world, transactionId, decisions, store.storage.codec.hash);
    if r.Ok? {
      RollbackFilesReport(store.storage, before, disk, store.Now(), ws.disk, r, executor, record, world,
                          transactionId);
    }
  }

  /**
   `rollback_edit_proposal`. A proposal this call marks `RolledBack` has its base files again. One that
   it leaves `RollbackAvailable` was applied when the call began, and is still applied exactly when the
   approval was not consumed or the executor's failing rollback left the files as proposed: the call
   does not look again.
   */
  method RollbackEditProposal(store: ProposalStore, ws: Workspace, executor: Executor, options: Options,
                              world: RollbackWorld)
      returns (r: Result<ProposalRecord, RunError>)
    requires store.Valid() && AllOk(store.history)
    modifies store, ws
    ensures store.Valid() && AllOk(store.history) && old(store.history) <= store.history
    ensures store.illegal == old(store.illegal)
    ensures RollbackOutcomeIs(store.storage, old(store.Now()), old(ws.disk), store.Now(), ws.disk, r, executor, options,
                              world)
    ensures SameProposal(old(store.Last()), store.Last())
    ensures r.Ok? ==> r.value == store.Last()
    ensures r.Ok? && store.history != old(store.history) ==>
      && old(store.Last()).apply.Some?
      && RollbackFiled(r.value, old(store.Last()), executor, old(ws.disk), world,
                       old(store.Last()).apply.value.transactionId)
    ensures store.history == old(store.history) ==>
      ws.disk == old(ws.disk) && (r.Ok? ==> r.value.state == RolledBack)
    ensures store.history != old(store.history) ==>
      && old(store.Last()).state in {RollbackAvailable, Applied} && RollbackEnd(store.Last().state)
      && Matches(old(ws.disk).files, old(store.Last()).files, true)
      && old(store.Last()).apply.Some? && old(store.Last()).apply.value.success
    ensures store.history != old(store.history) && store.Last().state == RolledBack ==>
      && Matches(ws.disk.files, store.Last().files, false)
      && var undone := executor.rollback(old(ws.disk), old(store.Last()).apply.value.transactionId);
         RolledBackBy(undone.0) && ws.disk == undone.1
    ensures store.history != old(store.history) && store.Last().state == RollbackAvailable ==>
      var undone := executor.rollback(old(ws.disk), old(store.Last()).apply.value.transactionId);
      && (Matches(ws.disk.files, store.Last().files, true)
          <==> !world.consumed.Granted? || Matches(undone.1.files, store.Last().files, true))
      && (world.consumed.Granted? ==> !RolledBackBy(undone.0) && ws.disk == undone.1)
  {
    hide AllOk, Good, SameReports, SameProposal, CanTransitionTo, Allowed, Attempt, Play, GoThrough, RollbackEnd,
         Matches, RollbackReady, RollbackChanges, StartRollbackChanges, Answers, Sound, RollbackFiled;
    SameAsItself(store.Last());
    var loaded := store.Load();
    if loaded.Err? {
      return Err(StoreFailed(loaded.error));
    }
    var record := loaded.value;
    var hash := store.storage.codec.hash;
    if record.state == RolledBack {
      NotReadyAgain(record, ws.disk.files, options, world, hash);
      return Ok(record);
    }
    var checked := CheckRollback(record, ws.disk.files, options, world, hash);
    if checked.Err? {
      return Err(checked.error);
    }
    RollbackReadyFacts(record, ws.disk.files, options, world, hash);
    r := RollBackChecked(store, ws, executor, record, world, checked.value);
    SamePlanAndFiles(record, store.Last());
  }

  lemma NotReadyAgain(record: ProposalRecord, files: Files, options: Options, world: RollbackWorld,
                      hash: string -> string)
    requires record.state == RolledBack
    ensures !RollbackReady(record, files, options, world, hash)
  {
  }

  // ---- Rollbacks that answer ----

  lemma RolledBackReason()
    ensures ReasonOk(ROLLED_BACK_REASON)
  {
    ShortReason(ROLLED_BACK_REASON);
  }

  lemma RecoverableReason()
    ensures ReasonOk(RECOVERABLE_REASON)
  {
    ShortReason(RECOVERABLE_REASON);
  }

  lemma AnswerIsLegal(executor: Executor, disk: Disk, record: ProposalRecord, world: RollbackWorld,
                      transactionId: string, hash: string -> string, state: ProposalState)
    requires world.consumed.Granted? && Answers(executor, disk, record, world, transactionId, hash)
    requires ReasonOk(ROLLING_BACK_REASON + transactionId) && state in {RollbackAvailable, Applied}
    ensures var changes := RollbackChanges(executor, disk, record, world, transactionId, hash);
      |changes| == 4 && Legal(state, record.proposalId, changes) && Rooms(changes) == |RollbackDecisions(world)|
  {
    RolledBackReason();
    RecoverableReason();
    RollbackEdges();
    hide ReasonOk, RollbackDecisions, CanTransitionTo, Legal, Rooms, Stuck, Sound;
    var id, changes := record.proposalId, RollbackChanges(executor, disk, record, world, transactionId, hash);
    var four := [changes[3]] + [];
    var three := [changes[2]] + four;
    var two := [changes[1]] + three;
    assert changes == [changes[0]] + two;
    LegalNothing(changes[1].next, id);
    LegalFirst(changes[1].next, id, changes[3], []);
    LegalFirst(changes[1].next, id, changes[2], four);
    LegalFirst(RollingBack, id, changes[1], three);
    LegalFirst(state, id, changes[0], two);
  }

  /** The proposal passes the checks, the approval is consumed, and the checks behind a rollback answer. */
  ghost predicate RollbackAnswers(storage: Storage, history: seq<ProposalRecord>, disk: Disk, executor: Executor,
                                  options: Options, world: RollbackWorld, record: ProposalRecord)
  {
    && history != [] && record == history[|history| - 1]
    && MayRollBack(history, disk.files, options, world, storage.codec.hash) && world.consumed.Granted?
    && record.apply.Some? && ReasonOk(ROLLING_BACK_REASON + record.apply.value.transactionId)
    && Answers(executor, disk, record, world, record.apply.value.transactionId, storage.codec.hash)
  }

  /**
   When no store write fails, such a call answers: with `RolledBack` after a sound rollback, with
   `RollbackAvailable` when the executor failed; either way the disk is as the executor left it.
   */
  lemma RollbackSucceeds(storage: Storage, before: Run, disk: Disk, after: Run, diskAfter: Disk,
                         r: Result<ProposalRecord, RunError>, executor: Executor, options: Options,
                         world: RollbackWorld, record: ProposalRecord, n: nat, room: nat)
    requires before.history != []
    requires RollbackAnswers(storage, before.history, disk, executor, options, world, record)
    requires RollbackOutcomeIs(storage, before, disk, after, diskAfter, r, executor, options, world)
    requires Reliable(storage, before, 4 + n, |RollbackDecisions(world)| + room)
    ensures r.Ok? && record.apply.Some?
    ensures diskAfter == executor.rollback(disk, record.apply.value.transactionId).1
    ensures r.value.state ==
      if !RolledBackBy(executor.rollback(disk, record.apply.value.transactionId).0) then RollbackAvailable
      else if Sound(record, world) then RolledBack else ProposalState.Failed
    ensures Reliable(storage, after, n, room)
  {
    hide *;
    AnswerParts(storage, before, disk, after, diskAfter, r, executor, options, world, record);
    CheckedAnswers(storage, before, disk, after, diskAfter, r, executor, record, world,
                   record.apply.value.transactionId, n, room);
  }

  /** What the outcome says of a proposal that passed its checks. */
  lemma AnswerParts(storage: Storage, before: Run, disk: Disk, after: Run, diskAfter: Disk,
                    r: Result<ProposalRecord, RunError>, executor: Executor, options: Options, world: RollbackWorld,
                    record: ProposalRecord)
    requires before.history != []
    requires RollbackAnswers(storage, before.history, disk, executor, options, world, record)
    requires RollbackOutcomeIs(storage, before, disk, after, diskAfter, r, executor, options, world)
    ensures record == before.history[|before.history| - 1] && record.state in {RollbackAvailable, Applied}
    ensures record.apply.Some? && world.consumed.Granted?
    ensures var id := record.apply.value.transactionId;
      && ReasonOk(ROLLING_BACK_REASON + id) && Answers(executor, disk, record, world, id, storage.codec.hash)
      && CheckedRollback(storage, before, disk, after, diskAfter, r, executor, record, world, id)
  {
    hide ReasonOk, AllMatch, Answers, CheckedRollback;
  }

  lemma CheckedAnswers(storage: Storage, before: Run, disk: Disk, after: Run, diskAfter: Disk,
                       r: Result<ProposalRecord, RunError>, executor: Executor, record: ProposalRecord,
                       world: RollbackWorld, id: string, n: nat, room: nat)
    requires before.history != [] && record == before.history[|before.history| - 1]
    requires record.state in {RollbackAvailable, Applied} && world.consumed.Granted?
    requires ReasonOk(ROLLING_BACK_REASON + id) && Answers(executor, disk, record, world, id, storage.codec.hash)
    requires CheckedRollback(storage, before, disk, after, diskAfter, r, executor, record, world, id)
    requires Reliable(storage, before, 4 + n, |RollbackDecisions(world)| + room)
    ensures r.Ok? && diskAfter == executor.rollback(disk, id).1
    ensures r.value.state ==
      if !RolledBackBy(executor.rollback(disk, id).0) then RollbackAvailable
      else if Sound(record, world) then RolledBack else ProposalState.Failed
    ensures Reliable(storage, after, n, room)
  {
    var hash := storage.codec.hash;
    hide ReasonOk, AllMatch, Sound, Answers, StartRollbackChanges, UndoChanges, Reliable, Play, GoThrough,
         RollbackDecisions, Legal, Rooms, RolledBackBy;
    AnswerIsLegal(executor, disk, record, world, id, hash, record.state);
    ReliableScript(storage, before, RollbackChanges(executor, disk, record, world, id, hash), n, room);
    PlayConcat(storage, before, StartRollbackChanges(world, id, RollbackDecisions(world)),
               UndoChanges(executor, disk, record, world, id, RollbackDecisions(world), hash));
  }

  // ---- Round trips, and a rollback that fails ----

  /** What the outside world shows and grants a rollback of this proposal. */
  predicate Welcomed(record: ProposalRecord, world: RollbackWorld) {
    && world.observed.Some? && world.observed.value.head == record.plan.baseHead
    && world.observed.value.rootHash == record.workspaceRootHash
    && world.git == record.verifiedDiff
    && world.preflight.Decided? && world.preflight.requiresApproval && world.approvalId.Some?
    && world.consumed.Granted?
  }

  lemma AppliedIsReady(storage: Storage, before: ProposalRecord, history: seq<ProposalRecord>, record: ProposalRecord,
                       disk: Disk, options: Options, world: RollbackWorld, transactionId: string)
    requires history != [] && record == history[|history| - 1] && |history| <= MAX_RECORD_GENERATIONS
    requires SameProposal(before, record) && before.verifiedDiff == record.verifiedDiff && before.verifiedDiff.Some?
    requires before.workspaceId == options.workspaceId && Welcomed(before, world)
    requires record.state == RollbackAvailable && record.apply.Some? && record.apply.value.success
    requires record.apply.value.transactionId == transactionId
    requires AllMatch(disk.files, before.files, true, storage.codec.hash)
    ensures MayRollBack(history, disk.files, options, world, storage.codec.hash)
  {
    hide AllMatch;
  }

  /**
   With an all-or-nothing executor and store writes that do not fail, applying and then rolling back
   gives every file of the workspace back.
   */
  method ApplyThenRollback(store: ProposalStore, ws: Workspace, executor: Executor, options: Options,
                           toApply: ApplyWorld, toRollBack: RollbackWorld, transactionId: string)
      returns (applied: Result<ProposalRecord, RunError>, undone: Result<ProposalRecord, RunError>)
    requires store.Valid() && AllOk(store.history) && AllOrNothing(executor)
    requires ApplyGoesWell(store.storage, store.history, ws.disk, executor, options, toApply, transactionId)
    requires Welcomed(store.Last(), toRollBack) && Sound(store.Last(), toRollBack)
    requires ReasonOk(ROLLING_BACK_REASON + transactionId)
    requires RolledBackBy(executor.rollback(
      Transacted(executor, ws.disk, store.Last(), transactionId).1, transactionId).0)
    requires Reliable(store.storage, store.Now(), 10, |ApplyDecisions(toApply)| + |RollbackDecisions(toRollBack)|)
    modifies store, ws
    ensures store.Valid() && AllOk(store.history)
    ensures applied.Ok? && applied.value.state == RollbackAvailable
    ensures undone.Ok? && undone.value.state == RolledBack && undone.value == store.Last()
    ensures ws.disk.files == old(ws.disk.files)
  {
    hide *;
    store.HasHistory();
    store.HasNow();
    ghost var before, disk, first := store.Now(), ws.disk, store.Last();
    WellBased(store.storage, store.history, ws.disk, executor, options, toApply, transactionId);
    applied := ApplyVerifiedProposal(store, ws, executor, options, toApply, transactionId);
    store.HasHistory();
    store.HasNow();
    ghost var between, left, second := store.Now(), ws.disk, store.Last();
    ApplySucceeds(store.storage, before, disk, between, left, applied, executor, options, toApply, transactionId, first,
                  4, |RollbackDecisions(toRollBack)|);
    ReliableHistory(store.storage, between, 4, |RollbackDecisions(toRollBack)|);
    AppliedIsReady(store.storage, first, store.history, second, left, options, toRollBack, transactionId);
    ExecutorRoundTrip(executor, disk, first, transactionId);
    undone := RollbackEditProposal(store, ws, executor, options, toRollBack);
    store.HasHistory();
    store.HasNow();
    RoundTripAnswers(store.storage, between.history, disk, left, executor, options, toRollBack, first, second,
                     transactionId);
    RollbackSucceeds(store.storage, between, left, store.Now(), ws.disk, undone, executor, options, toRollBack, second,
                     0, 0);
  }

  lemma WellBased(storage: Storage, history: seq<ProposalRecord>, disk: Disk, executor: Executor, options: Options,
                  world: ApplyWorld, transactionId: string)
    requires ApplyGoesWell(storage, history, disk, executor, options, world, transactionId)
    ensures history != []
    ensures var record := history[|history| - 1];
      && AllMatch(disk.files, record.files, false, storage.codec.hash) && record.workspaceId == options.workspaceId
      && record.verifiedDiff.Some? && Committed(Transacted(executor, disk, record, transactionId).0)
  {
    hide AllMatch, Transacted, Kept, Drift, ReasonOk, ExpiryChanges;
  }

  lemma RoundTripAnswers(storage: Storage, history: seq<ProposalRecord>, disk: Disk, left: Disk, executor: Executor,
                         options: Options, world: RollbackWorld, first: ProposalRecord, second: ProposalRecord,
                         transactionId: string)
    requires history != [] && second == history[|history| - 1] && SameProposal(first, second)
    requires MayRollBack(history, left.files, options, world, storage.codec.hash)
    requires Welcomed(first, world) && Sound(first, world) && ReasonOk(ROLLING_BACK_REASON + transactionId)
    requires second.apply.Some? && second.apply.value.transactionId == transactionId
    requires AllMatch(disk.files, first.files, false, storage.codec.hash)
    requires executor.rollback(left, transactionId).1.files == disk.files
    ensures RollbackAnswers(storage, history, left, executor, options, world, second)
    ensures Sound(second, world)
  {
    hide AllMatch, MayRollBack, ReasonOk;
  }

  lemma ExecutorRoundTrip(executor: Executor, d: Disk, record: ProposalRecord, id: string)
    requires AllOrNothing(executor) && Committed(Transacted(executor, d, record, id).0)
    ensures var left := Transacted(executor, d, record, id).1;
      RolledBackBy(executor.rollback(left, id).0) ==> executor.rollback(left, id).1.files == d.files
  {
    hide Written, Save, Restore, Committed, RolledBackBy, ProposalMutations;
    RestoreUndoesWrite(d.files, ProposalMutations(record.files));
  }

  /** An executor whose failing rollback empties the workspace. */
  function Wrecker(): Executor {
    Executor((d: Disk, mutations, id) => (ApplyRaised("refused"), d),
             (d: Disk, id) => (RollbackFinished(false, ["rollback failed"]), Disk(map[], d.journal)))
  }

  /** After it, `RollbackAvailable` is no longer true of the files. */
  method FailedRollbackMisleads(store: ProposalStore, ws: Workspace, options: Options, world: RollbackWorld)
      returns (r: Result<ProposalRecord, RunError>)
    requires store.Valid() && AllOk(store.history) && store.Last().files != []
    requires MayRollBack(store.history, ws.disk.files, options, world, store.storage.codec.hash)
    requires world.consumed.Granted?
    requires store.Last().apply.Some? && ReasonOk(ROLLING_BACK_REASON + store.Last().apply.value.transactionId)
    requires Reliable(store.storage, store.Now(), 4, |RollbackDecisions(world)|)
    modifies store, ws
    ensures r.Ok? && r.value.state == RollbackAvailable && SameProposal(old(store.Last()), r.value)
    ensures !Matches(ws.disk.files, r.value.files, true)
  {
    hide *;
    store.HasHistory();
    store.HasNow();
    ghost var before, disk, first := store.Now(), ws.disk, store.Last();
    WreckerFails(ws.disk, first, world, store.storage.codec.hash);
    WreckerAnswers(store.storage, store.history, ws.disk, options, world, first);
    r := RollbackEditProposal(store, ws, Wrecker(), options, world);
    store.HasHistory();
    store.HasNow();
    RollbackSucceeds(store.storage, before, disk, store.Now(), ws.disk, r, Wrecker(), options, world, first, 0, 0);
    SamePlanAndFiles(first, store.Last());
  }

  lemma WreckerFails(d: Disk, record: ProposalRecord, world: RollbackWorld, hash: string -> string)
    requires record.files != [] && record.apply.Some?
    ensures var undone := Wrecker().rollback(d, record.apply.value.transactionId);
      !RolledBackBy(undone.0) && !Matches(undone.1.files, record.files, true)
    ensures Answers(Wrecker(), d, record, world, record.apply.value.transactionId, hash)
  {
    assert record.files[0] in record.files;
  }

  lemma WreckerAnswers(storage: Storage, history: seq<ProposalRecord>, disk: Disk, options: Options,
                       world: RollbackWorld, record: ProposalRecord)
    requires history != [] && record == history[|history| - 1]
    requires MayRollBack(history, disk.files, options, world, storage.codec.hash) && world.consumed.Granted?
    requires record.apply.Some? && ReasonOk(ROLLING_BACK_REASON + record.apply.value.transactionId)
    requires Answers(Wrecker(), disk, record, world, record.apply.value.transactionId, storage.codec.hash)
    ensures RollbackAnswers(storage, history, disk, Wrecker(), options, world, record)
  {
    hide MayRollBack, ReasonOk, Answers, Wrecker;
  }
}
