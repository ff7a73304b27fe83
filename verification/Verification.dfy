/**
 Verifying a proposal in a disposable worktree. The worktree's files, the policy engine, the parser,
 Git, the build and the cleanup are inputs; the original workspace is not touched.
 */
module Verification {
  import opened Wrappers
  import opened Text
  import opened EditSchema
  import opened ProposalSchema
  import opened Records
  import opened RecordFiles
  import opened StoreRuns
  import opened Store
  import opened Transactions
  import opened Lifecycle
  import opened Apply

  /** The texts that the records keep of what happened. */
  const PREPARED_REASON := "disposable worktree prepared"
  const IN_WORKTREE_REASON := "validated snapshots applied " + "transactionally in " + "disposable worktree"
  const BUILD_REASON := "offline allowlisted build " + "started in disposable worktree"
  const VERDICT_REASON := "proposal verification finished"

  datatype VerifyWorld = VerifyWorld(
    now: nat,
    nowAtCheck: nat,
    observed: Option<Observed>,
    setup: seq<PolicyReference>,
    teardown: seq<PolicyReference>,
    operationRuns: bool,
    runId: Option<string>,
    worktree: Disk,
    writes: seq<Authorization>,
    applying: Authorization,
    reparse: StageStatus,
    diffing: Authorization,
    git: Option<VerifiedDiff>,
    buildFound: bool,
    building: Authorization,
    build: Option<(StageStatus, StageStatus)>,
    filesAfterBuild: Files,
    cleanupSuccess: bool,
    sourceUnchanged: bool,
    runErrors: seq<string>,
    verifiedAt: nat)

  /** How far the stages in the worktree got. */
  datatype Progress = Progress(
    apply: StageStatus,
    reparse: StageStatus,
    build: StageStatus,
    tests: StageStatus,
    diff: StageStatus,
    verifiedDiff: Option<VerifiedDiff>)

  const NOTHING_RUN := Progress(NotRun, NotRun, NotRun, NotRun, NotRun, None)

  /** The states from which a verification may start, and those it passes through. */
  const VERIFIABLE := {Validated, Verified, VerificationFailed}
  const IN_WORKTREE := {WorktreePrepared, WorktreeApplied, BuildRunning}

  ghost predicate VerificationPreconditions(r: ProposalRecord, options: Options, now: nat) {
    && r.workspaceId == options.workspaceId && r.plan.profile == options.profile
    && r.state in VERIFIABLE && !IsExpired(r, now)
  }

  method CheckPreconditions(r: ProposalRecord, options: Options, now: nat) returns (ok: bool)
    ensures ok <==> VerificationPreconditions(r, options, now)
  {
    hide IsExpired;
    if r.workspaceId != options.workspaceId || r.plan.profile != options.profile {
      return false;
    }
    return (r.state == Validated || r.state == Verified || r.state == VerificationFailed) && !IsExpired(r, now);
  }

  lemma VerifyEdges(s: ProposalState)
    ensures s in VERIFIABLE ==> CanTransitionTo(s, WorktreePrepared)
    ensures CanTransitionTo(WorktreePrepared, WorktreeApplied) && CanTransitionTo(WorktreeApplied, BuildRunning)
    ensures s in VERIFIABLE + IN_WORKTREE ==> CanTransitionTo(s, VerificationFailed)
    ensures CanTransitionTo(BuildRunning, Verified)
  {
  }

  lemma VerifySets()
    ensures VERIFIABLE == {Validated, Verified, VerificationFailed}
    ensures IN_WORKTREE == {WorktreePrepared, WorktreeApplied, BuildRunning}
  {
  }

  // ---- Verdicts ----

  /** A transition to `Verified`, even from `Verified` itself, starts at a running build. */
  ghost predicate VerdictFromBuild(before: ProposalRecord, after: ProposalRecord) {
    |after.transitions| != |before.transitions| && after.state == Verified ==> before.state == BuildRunning
  }

  ghost predicate VerdictsFromBuild(history: seq<ProposalRecord>, start: nat) {
    forall i :: 0 < i < |history| && start <= i ==> VerdictFromBuild(history[i - 1], history[i])
  }

  lemma VerdictsSnoc(history: seq<ProposalRecord>, start: nat, r: ProposalRecord)
    requires history != [] && VerdictsFromBuild(history, start)
    requires var last := history[|history| - 1];
      r.transitions == last.transitions || (r.state == Verified ==> last.state == BuildRunning)
    ensures VerdictsFromBuild(history + [r], start)
  {
    assert VerdictFromBuild(history[|history| - 1], r);
    hide VerdictFromBuild;
  }

  /** One move that keeps the account of verdicts. */
  method Step(store: ProposalStore, next: ProposalState, reason: string, ghost start: nat)
      returns (r: Result<ProposalRecord, StoreError>)
    requires store.Valid() && AllOk(store.history) && next != Expired && VerdictsFromBuild(store.history, start)
    requires next == Verified ==> store.Last().state == BuildRunning
    modifies store
    ensures store.Valid() && AllOk(store.history) && old(store.history) <= store.history
    ensures store.history != [] && store.Last() == (if r.Ok? then r.value else old(store.Last()))
    ensures SameProposal(old(store.Last()), store.Last()) && VerdictsFromBuild(store.history, start)
    ensures r.Ok? ==> r.value.state == next && store.history == old(store.history) + [r.value]
    ensures r.Ok? ==> r.value.policy == old(store.Last()).policy
    ensures r.Err? ==> store.history == old(store.history)
    ensures CanTransitionTo(old(store.Last()).state, next) ==> store.illegal == old(store.illegal)
    ensures r.Ok? <==> old(Allowed(store.storage, store.Now(), Transition(next, reason)))
    ensures store.Now() == old(Attempt(store.storage, store.Now(), Transition(next, reason)))
  {
    hide *;
    store.HasHistory();
    SameAsItself(store.Last());
    r := Move(store, next, reason);
    if r.Ok? {
      VerdictsSnoc(old(store.history), start, r.value);
    }
  }

  // ---- In the worktree ----

  function References(authorizations: seq<Authorization>): seq<PolicyReference> {
    if authorizations == [] then []
    else References(authorizations[..|authorizations| - 1]) + ReferencesOf(authorizations[|authorizations| - 1])
  }

  lemma NoReferences(writes: seq<Authorization>)
    ensures References(writes[..0]) == []
  {
  }

  lemma OneMoreReference(writes: seq<Authorization>, i: nat)
    requires i < |writes|
    ensures References(writes[..i + 1]) == References(writes[..i]) + ReferencesOf(writes[i])
    ensures |ReferencesOf(writes[i])| <= 1
  {
    assert writes[..i + 1][..i] == writes[..i];
  }

  /** Every write is granted, and every modified file passes its base check. */
  ghost predicate WritesGranted(files: Files, snapshots: seq<FileSnapshot>, writes: seq<Authorization>) {
    && |snapshots| <= |writes|
    && forall i :: 0 <= i < |snapshots| ==>
         writes[i].Granted? && (snapshots[i].status == Modified ==> BaseAt(files, snapshots[i]))
  }

  /** How many writes are asked for, from the `i`-th file on: up to the first that is refused or not possible. */
  ghost function Asked(files: Files, snapshots: seq<FileSnapshot>, writes: seq<Authorization>, i: nat): (n: nat)
    requires i <= |snapshots| && i <= |writes|
    ensures i <= n <= |writes|
    decreases |snapshots| - i
  {
    if i == |snapshots| || i == |writes| || (snapshots[i].status == Modified && !BaseAt(files, snapshots[i])) then i
    else if !writes[i].Granted? then i + 1
    else Asked(files, snapshots, writes, i + 1)
  }

  /** Every file's write is authorised on the strength of what is actually checked out. */
  method AuthorizeWrites(files: Files, snapshots: seq<FileSnapshot>, writes: seq<Authorization>)
      returns (ok: bool, decisions: seq<PolicyReference>)
    ensures ok <==> WritesGranted(files, snapshots, writes)
    ensures ok ==> decisions == References(writes[..|snapshots|])
    ensures decisions == References(writes[..Asked(files, snapshots, writes, 0)])
    ensures |decisions| <= |snapshots|
  {
    hide BaseAt, References;
    NoReferences(writes);
    decisions := [];
    for i := 0 to |snapshots|
      invariant i <= |writes| && WritesGranted(files, snapshots[..i], writes)
      invariant decisions == References(writes[..i]) && |decisions| <= i
      invariant Asked(files, snapshots, writes, 0) == Asked(files, snapshots, writes, i)
    {
      if snapshots[i].status == Modified {
        var base := CheckBase(files, snapshots[i]);
        if !base {
          return false, decisions;
        }
      }
      if i >= |writes| {
        return false, decisions;
      }
      OneMoreReference(writes, i);
      decisions := decisions + ReferencesOf(writes[i]);
      if !writes[i].Granted? {
        return false, decisions;
      }
    }
    assert snapshots[..|snapshots|] == snapshots;
    return true, decisions;
  }

  /** The base is checked out, everything is granted, and the transaction commits. */
  ghost predicate AppliesInWorktree(record: ProposalRecord, executor: Executor, world: VerifyWorld,
                                    transactionId: string) {
    && (forall file :: file in record.files ==> BaseAt(world.worktree.files, file))
    && WritesGranted(world.worktree.files, record.files, world.writes) && world.applying.Granted?
    && Committed(InWorktree(record, executor, world, transactionId).0)
  }

  function InWorktree(record: ProposalRecord, executor: Executor, world: VerifyWorld, transactionId: string)
      : (ApplyOutcome, Disk)
  {
    executor.apply(world.worktree, WorktreeMutationsOf(world.worktree.files, record.files), transactionId)
  }

  /** Nothing is run without base and grants; a transaction that raises is not reported as run either. */
  ghost function ApplyStage(record: ProposalRecord, executor: Executor, world: VerifyWorld, transactionId: string)
      : StageStatus
  {
    if !(forall file :: file in record.files ==> BaseAt(world.worktree.files, file))
       || !WritesGranted(world.worktree.files, record.files, world.writes) || !world.applying.Granted? then NotRun
    else
      match InWorktree(record, executor, world, transactionId).0
      case ApplyRaised(_) => NotRun
      case ApplyFinished(committed, _, _, _) => if committed then Passed else FailedStage
  }

  /** The decisions taken up to the transaction, in their order. */
  ghost function ApplyReferences(record: ProposalRecord, world: VerifyWorld): seq<PolicyReference> {
    if !(forall file :: file in record.files ==> BaseAt(world.worktree.files, file)) then []
    else
      References(world.writes[..Asked(world.worktree.files, record.files, world.writes, 0)])
      + if WritesGranted(world.worktree.files, record.files, world.writes) then ReferencesOf(world.applying) else []
  }

  /** Checks and the transaction itself. */
  method ApplyInWorktree(record: ProposalRecord, executor: Executor, world: VerifyWorld, transactionId: string)
      returns (status: StageStatus, after: Disk, decisions: seq<PolicyReference>)
    ensures status == Passed <==> AppliesInWorktree(record, executor, world, transactionId)
    ensures status == Passed ==>
      && after == InWorktree(record, executor, world, transactionId).1
      && decisions == References(world.writes[..|record.files|]) + ReferencesOf(world.applying)
    ensures status == ApplyStage(record, executor, world, transactionId)
    ensures decisions == ApplyReferences(record, world)
    ensures |decisions| <= |record.files| + 1
  {
    hide BaseAt, WorktreeMutationOf, References, Asked, WritesGranted;
    status, after, decisions := NotRun, world.worktree, [];
    var base := VerifyWorktreeBaseAt(world.worktree.files, record.files);
    if !base {
      return;
    }
    var granted: bool;
    granted, decisions := AuthorizeWrites(world.worktree.files, record.files, world.writes);
    if !granted {
      return;
    }
    decisions := decisions + ReferencesOf(world.applying);
    if !world.applying.Granted? {
      return;
    }
    var mutations := WorktreeMutations(world.worktree.files, record.files);
    if mutations.None? {
      return;
    }
    var (outcome, disk) := executor.apply(world.worktree, mutations.value, transactionId);
    after := disk;
    if outcome.ApplyRaised? {
      return;
    }
    status := if Committed(outcome) then Passed else FailedStage;
  }

  /** The proposed files are there and parse, and the diff they make is within the plan's limits. */
  ghost predicate ChecksInWorktree(record: ProposalRecord, files: Files, world: VerifyWorld, hash: string -> string) {
    && AllMatch(files, record.files, true, hash) && world.reparse == Passed && world.diffing.Granted?
    && world.git.Some? && DiffWithinLimits(record.plan.limits, world.git.value.statistics)
  }

  ghost function CheckReferences(record: ProposalRecord, files: Files, world: VerifyWorld, hash: string -> string)
      : seq<PolicyReference>
  {
    if AllMatch(files, record.files, true, hash) && world.reparse == Passed then ReferencesOf(world.diffing) else []
  }

  method CheckInWorktree(record: ProposalRecord, files: Files, world: VerifyWorld, progress: Progress,
                         hash: string -> string)
      returns (checked: Progress, ok: bool, decisions: seq<PolicyReference>)
    requires progress.reparse == NotRun && progress.build == NotRun && progress.diff == NotRun
    ensures ok <==> ChecksInWorktree(record, files, world, hash)
    ensures ok ==>
      && checked == progress.(reparse := Passed, diff := Passed, verifiedDiff := world.git)
      && decisions == ReferencesOf(world.diffing) && Matches(files, record.files, true)
    ensures checked == progress.(
        reparse := if AllMatch(files, record.files, true, hash) then world.reparse else NotRun,
        diff := if ok then Passed else NotRun,
        verifiedDiff := if ok then world.git else progress.verifiedDiff)
    ensures decisions == CheckReferences(record, files, world, hash)
    ensures checked.build == NotRun && checked.apply == progress.apply
    ensures checked.diff == Passed <==> ok
    ensures |decisions| <= 1
  {
    hide Matches, AllMatch, DiffWithinLimits;
    checked, ok, decisions := progress, false, [];
    var proposed := VerifySnapshotsAt(files, record.files, true, hash);
    if !proposed {
      return;
    }
    checked := checked.(reparse := world.reparse);
    if world.reparse != Passed {
      return;
    }
    decisions := ReferencesOf(world.diffing);
    if !world.diffing.Granted? {
      return;
    }
    var diff := CaptureVerifiedDiff(files, record.files, world.git, hash);
    if diff.None? {
      return;
    }
    var fits := EnforceDiffLimits(record.plan.limits, diff.value.statistics);
    if !fits {
      return;
    }
    checked, ok := checked.(diff := Passed, verifiedDiff := diff), true;
  }

  /** What is known of the progress at any point of the run. */
  ghost predicate ProgressOk(p: Progress, state: ProposalState, limits: EditPlanLimits) {
    && (p.build == Passed ==> state == BuildRunning)
    && (p.diff == Passed ==> p.verifiedDiff.Some? && DiffWithinLimits(limits, p.verifiedDiff.value.statistics))
  }

  const PREPARE := Transition(WorktreePrepared, PREPARED_REASON)
  const APPLY_INSIDE := Transition(WorktreeApplied, IN_WORKTREE_REASON)
  const START_BUILD := Transition(BuildRunning, BUILD_REASON)

  /** The first two transitions: prepare the worktree, and apply the proposal in it. */
  method PrepareAndApply(store: ProposalStore, executor: Executor, record: ProposalRecord, world: VerifyWorld,
                         transactionId: string, ghost start: nat)
      returns (applied: StageStatus, after: Disk, ok: bool, decisions: seq<PolicyReference>)
    requires store.Valid() && AllOk(store.history) && store.Last() == record && record.state in VERIFIABLE
    requires VerdictsFromBuild(store.history, start)
    modifies store
    ensures store.Valid() && AllOk(store.history) && old(store.history) <= store.history
    ensures store.illegal == old(store.illegal)
    ensures var changes :=
        [PREPARE] + if AppliesInWorktree(record, executor, world, transactionId) then [APPLY_INSIDE] else [];
      && store.Now() == old(Play(store.storage, store.Now(), changes))
      && (ok <==>
          && AppliesInWorktree(record, executor, world, transactionId)
          && old(GoThrough(store.storage, store.Now(), changes)))
    ensures SameProposal(record, store.Last()) && VerdictsFromBuild(store.history, start)
    ensures store.Last().state in VERIFIABLE + IN_WORKTREE
    ensures ok ==>
      && store.Last().state == WorktreeApplied && applied == Passed
      && after == InWorktree(record, executor, world, transactionId).1
      && decisions == References(world.writes[..|record.files|]) + ReferencesOf(world.applying)
    ensures var prepared := old(Allowed(store.storage, store.Now(), PREPARE));
      && applied == (if prepared then ApplyStage(record, executor, world, transactionId) else NotRun)
      && decisions == (if prepared then ApplyReferences(record, world) else [])
    ensures |decisions| <= |record.files| + 1
  {
    hide *;
    store.HasHistory();
    store.HasNow();
    VerifyEdges(record.state);
    VerifySets();
    StageChanges();
    SameAsItself(record);
    PlayFirst(store.storage, store.Now(), PREPARE, []);
    PlayFirst(store.storage, store.Now(), PREPARE, [APPLY_INSIDE]);
    applied, after, ok, decisions := NotRun, world.worktree, false, [];
    var prepared := Step(store, WorktreePrepared, PREPARED_REASON, start);
    store.HasNow();
    PlayNothing(store.storage, store.Now());
    PlayOne(store.storage, store.Now(), APPLY_INSIDE);
    if prepared.Err? {
      return;
    }
    applied, after, decisions := ApplyInWorktree(record, executor, world, transactionId);
    if applied != Passed {
      return;
    }
    var moved := Step(store, WorktreeApplied, IN_WORKTREE_REASON, start);
    if moved.Err? {
      return;
    }
    SameThrough(record, prepared.value, moved.value);
    ok := true;
  }

  lemma StageChanges()
    ensures PREPARE == Transition(WorktreePrepared, PREPARED_REASON)
    ensures APPLY_INSIDE == Transition(WorktreeApplied, IN_WORKTREE_REASON)
    ensures START_BUILD == Transition(BuildRunning, BUILD_REASON)
  {
  }

  /** The build is found and granted, it passes, required tests do not fail, and the files stay as proposed. */
  ghost predicate BuildsInWorktree(record: ProposalRecord, world: VerifyWorld, hash: string -> string) {
    && world.buildFound && world.building.Granted? && world.build.Some?
    && world.build.value.0 == Passed && world.build.value.1 !in {FailedStage, Cancelled}
    && AllMatch(world.filesAfterBuild, record.files, true, hash)
  }

  /** The build is found, granted, and comes back with a result. */
  predicate BuildRuns(world: VerifyWorld) {
    world.buildFound && world.building.Granted? && world.build.Some?
  }

  ghost function BuiltStages(progress: Progress, world: VerifyWorld): Progress
    requires world.build.Some?
  {
    progress.(build := world.build.value.0, tests := world.build.value.1)
  }

  /** The third transition, the build, and a last look at the files. */
  method BuildInWorktree(store: ProposalStore, record: ProposalRecord, world: VerifyWorld, progress: Progress,
                         hash: string -> string, ghost start: nat)
      returns (built: Progress, ok: bool, decisions: seq<PolicyReference>)
    requires store.Valid() && AllOk(store.history) && SameProposal(record, store.Last())
    requires store.Last().state == WorktreeApplied && VerdictsFromBuild(store.history, start)
    requires ProgressOk(progress, BuildRunning, record.plan.limits) && progress.build == NotRun
    modifies store
    ensures store.Valid() && AllOk(store.history) && old(store.history) <= store.history
    ensures store.illegal == old(store.illegal)
    ensures store.Now() == old(Attempt(store.storage, store.Now(), START_BUILD))
    ensures ok <==> BuildsInWorktree(record, world, hash) && old(Allowed(store.storage, store.Now(), START_BUILD))
    ensures ok ==>
      && world.build.Some? && decisions == ReferencesOf(world.building)
      && built == progress.(build := world.build.value.0, tests := world.build.value.1)
    ensures var started := old(Allowed(store.storage, store.Now(), START_BUILD));
      && built == (if started && BuildRuns(world) then BuiltStages(progress, world) else progress)
      && decisions == (if started && world.buildFound then ReferencesOf(world.building) else [])
    ensures SameProposal(record, store.Last()) && VerdictsFromBuild(store.history, start)
    ensures store.Last().state in IN_WORKTREE && ProgressOk(built, store.Last().state, record.plan.limits)
    ensures |decisions| <= 1
  {
    hide AllOk, Good, SameProposal, VerdictsFromBuild, ProgressOk, CanTransitionTo, Allowed, Attempt, AllMatch, Matches;
    VerifyEdges(WorktreeApplied);
    StageChanges();
    built, ok, decisions := progress, false, [];
    StillNotBuilt(progress, WorktreeApplied, record.plan.limits);
    var building := Step(store, BuildRunning, BUILD_REASON, start);
    SameThrough(record, old(store.Last()), store.Last());
    if building.Err? || !world.buildFound {
      return;
    }
    decisions := ReferencesOf(world.building);
    if !world.building.Granted? || world.build.None? {
      return;
    }
    var (build, tests) := world.build.value;
    BuildRan(progress, build, tests, record.plan.limits);
    built := progress.(build := build, tests := tests);
    var intact := VerifySnapshotsAt(world.filesAfterBuild, record.files, true, hash);
    ok := intact && build == Passed && tests != FailedStage && tests != Cancelled;
  }

  lemma StillNotBuilt(p: Progress, state: ProposalState, limits: EditPlanLimits)
    requires ProgressOk(p, BuildRunning, limits) && p.build == NotRun
    ensures ProgressOk(p, state, limits)
  {
  }

  /** Everything in the worktree goes well. */
  ghost predicate PassesInWorktree(record: ProposalRecord, executor: Executor, world: VerifyWorld,
                                   transactionId: string, hash: string -> string)
  {
    && AppliesInWorktree(record, executor, world, transactionId)
    && ChecksInWorktree(record, InWorktree(record, executor, world, transactionId).1.files, world, hash)
    && BuildsInWorktree(record, world, hash)
  }

  /** The transitions that a run in the worktree gets to. */
  ghost function WorktreeChanges(record: ProposalRecord, executor: Executor, world: VerifyWorld, transactionId: string,
                                 hash: string -> string): seq<Change>
  {
    if !AppliesInWorktree(record, executor, world, transactionId) then [PREPARE]
    else if !ChecksInWorktree(record, InWorktree(record, executor, world, transactionId).1.files, world, hash)
    then [PREPARE, APPLY_INSIDE]
    else [PREPARE, APPLY_INSIDE, START_BUILD]
  }

  /** What a run in which everything goes well leaves behind. */
  function GoodProgress(world: VerifyWorld): Progress
    requires world.build.Some?
  {
    Progress(Passed, Passed, world.build.value.0, world.build.value.1, Passed, world.git)
  }

  function RunDecisions(record: ProposalRecord, world: VerifyWorld): seq<PolicyReference> {
    References(if |record.files| <= |world.writes| then world.writes[..|record.files|] else world.writes)
    + ReferencesOf(world.applying) + ReferencesOf(world.diffing) + ReferencesOf(world.building)
  }

  /** How far the stages get: a stage that is not reached, or in front of which the store fails, has not run. */
  ghost function StagesOf(storage: Storage, before: Run, record: ProposalRecord, executor: Executor,
                          world: VerifyWorld, transactionId: string, hash: string -> string): Progress
  {
    var after := InWorktree(record, executor, world, transactionId).1;
    if !GoThrough(storage, before, [PREPARE]) then NOTHING_RUN
    else
      var applied := NOTHING_RUN.(apply := ApplyStage(record, executor, world, transactionId));
      if applied.apply != Passed || !GoThrough(storage, before, [PREPARE, APPLY_INSIDE]) then applied
      else
        var parsed := applied.(reparse := if AllMatch(after.files, record.files, true, hash) then world.reparse
                                          else NotRun);
        if !ChecksInWorktree(record, after.files, world, hash) then parsed
        else
          var diffed := parsed.(diff := Passed, verifiedDiff := world.git);
          if BuildRuns(world) && GoThrough(storage, before, [PREPARE, APPLY_INSIDE, START_BUILD])
          then BuiltStages(diffed, world) else diffed
  }

  /** The decisions taken on the way, in their order. */
  ghost function StageReferences(storage: Storage, before: Run, record: ProposalRecord, executor: Executor,
                                 world: VerifyWorld, transactionId: string, hash: string -> string)
      : seq<PolicyReference>
  {
    var after := InWorktree(record, executor, world, transactionId).1;
    if !GoThrough(storage, before, [PREPARE]) then []
    else if ApplyStage(record, executor, world, transactionId) != Passed
            || !GoThrough(storage, before, [PREPARE, APPLY_INSIDE]) then ApplyReferences(record, world)
    else
      ApplyReferences(record, world) + CheckReferences(record, after.files, world, hash)
      + if ChecksInWorktree(record, after.files, world, hash) && world.buildFound
           && GoThrough(storage, before, [PREPARE, APPLY_INSIDE, START_BUILD])
        then ReferencesOf(world.building) else []
  }

  /** The operation run inside the worktree: five stages, three transitions. */
  method RunInWorktree(store: ProposalStore, executor: Executor, record: ProposalRecord, world: VerifyWorld,
                       transactionId: string, hash: string -> string, ghost start: nat)
      returns (progress: Progress, ok: bool, decisions: seq<PolicyReference>)
    requires store.Valid() && AllOk(store.history) && store.Last() == record && record.state in VERIFIABLE
    requires VerdictsFromBuild(store.history, start)
    modifies store
    ensures store.Valid() && AllOk(store.history) && old(store.history) <= store.history
    ensures store.illegal == old(store.illegal)
    ensures var changes := WorktreeChanges(record, executor, world, transactionId, hash);
      && store.Now() == old(Play(store.storage, store.Now(), changes))
      && (ok <==>
          && PassesInWorktree(record, executor, world, transactionId, hash)
          && old(GoThrough(store.storage, store.Now(), changes)))
    ensures ok ==>
      world.build.Some? && progress == GoodProgress(world) && decisions == RunDecisions(record, world)
    ensures progress
      == old(StagesOf(store.storage, store.Now(), record, executor, world, transactionId, hash))
    ensures decisions
      == old(StageReferences(store.storage, store.Now(), record, executor, world, transactionId, hash))
    ensures SameProposal(record, store.Last()) && VerdictsFromBuild(store.history, start)
    ensures store.Last().state in VERIFIABLE + IN_WORKTREE
    ensures ProgressOk(progress, store.Last().state, record.plan.limits)
    ensures |decisions| <= |record.files| + 3
  {
    hide AllOk, Good, SameProposal, VerdictsFromBuild, ProgressOk, Allowed, Attempt, Play, GoThrough, AppliesInWorktree,
         ChecksInWorktree, BuildsInWorktree, InWorktree, References, PREPARE, APPLY_INSIDE, START_BUILD, ApplyStage,
         ApplyReferences, CheckReferences, BuildRuns;
    ghost var applies := AppliesInWorktree(record, executor, world, transactionId);
    ghost var before, first := store.Now(), [PREPARE] + if applies then [APPLY_INSIDE] else [];
    ghost var checks := applies
      && ChecksInWorktree(record, InWorktree(record, executor, world, transactionId).1.files, world, hash);
    ghost var rest := if checks then [START_BUILD] else [];
    assert WorktreeChanges(record, executor, world, transactionId, hash) == first + rest;
    PlayConcat(store.storage, before, first, rest);
    ScriptsUnfold(store.storage, before);
    StagePassedIff(record, executor, world, transactionId);
    var applied, after, inPlace, references := PrepareAndApply(store, executor, record, world, transactionId, start);
    PlayNothing(store.storage, store.Now());
    PlayOne(store.storage, store.Now(), START_BUILD);
    progress, ok, decisions := NOTHING_RUN.(apply := applied), false, references;
    Checked(progress, store.Last().state, record.plan.limits);
    if !inPlace {
      return;
    }
    BuildNeedsWrites(record, executor, world, transactionId);
    var reached: bool;
    progress, reached, references := CheckInWorktree(record, after.files, world, progress, hash);
    decisions := decisions + references;
    CheckedDiff(record, after.files, world, progress, hash);
    Checked(progress, store.Last().state, record.plan.limits);
    Checked(progress, BuildRunning, record.plan.limits);
    if !reached {
      return;
    }
    progress, ok, references := BuildInWorktree(store, record, world, progress, hash, start);
    decisions := decisions + references;
  }

  lemma StagePassedIff(record: ProposalRecord, executor: Executor, world: VerifyWorld, transactionId: string)
    ensures ApplyStage(record, executor, world, transactionId) == Passed
      <==> AppliesInWorktree(record, executor, world, transactionId)
  {
    hide BaseAt, WritesGranted, InWorktree;
  }

  lemma ScriptsUnfold(storage: Storage, run: Run)
    ensures GoThrough(storage, run, [PREPARE]) <==> Allowed(storage, run, PREPARE)
    ensures [PREPARE] + [] == [PREPARE] && [PREPARE] + [APPLY_INSIDE] == [PREPARE, APPLY_INSIDE]
    ensures GoThrough(storage, run, [PREPARE, APPLY_INSIDE]) ==> GoThrough(storage, run, [PREPARE])
    ensures GoThrough(storage, run, [PREPARE, APPLY_INSIDE, START_BUILD])
      <==> && GoThrough(storage, run, [PREPARE, APPLY_INSIDE])
           && Allowed(storage, Play(storage, run, [PREPARE, APPLY_INSIDE]), START_BUILD)
  {
    hide *;
    PlayOne(storage, run, PREPARE);
    PlayTwo(storage, run, PREPARE, APPLY_INSIDE);
    assert [PREPARE, APPLY_INSIDE] + [START_BUILD] == [PREPARE, APPLY_INSIDE, START_BUILD];
    PlayConcat(storage, run, [PREPARE, APPLY_INSIDE], [START_BUILD]);
    PlayOne(storage, Play(storage, run, [PREPARE, APPLY_INSIDE]), START_BUILD);
  }

  lemma BuildNeedsWrites(record: ProposalRecord, executor: Executor, world: VerifyWorld, transactionId: string)
    requires AppliesInWorktree(record, executor, world, transactionId)
    ensures |record.files| <= |world.writes|
  {
    hide BaseAt, InWorktree;
  }

  lemma CheckedDiff(record: ProposalRecord, files: Files, world: VerifyWorld, p: Progress, hash: string -> string)
    requires p.diff == Passed ==> ChecksInWorktree(record, files, world, hash) && p.verifiedDiff == world.git
    ensures p.diff == Passed ==>
      p.verifiedDiff.Some? && DiffWithinLimits(record.plan.limits, p.verifiedDiff.value.statistics)
  {
    hide AllMatch, DiffWithinLimits;
  }

  lemma Checked(p: Progress, state: ProposalState, limits: EditPlanLimits)
    requires p.build == NotRun
    requires p.diff == Passed ==> p.verifiedDiff.Some? && DiffWithinLimits(limits, p.verifiedDiff.value.statistics)
    ensures ProgressOk(p, state, limits)
  {
  }

  lemma BuildRan(p: Progress, build: StageStatus, tests: StageStatus, limits: EditPlanLimits)
    requires ProgressOk(p, BuildRunning, limits)
    ensures ProgressOk(p.(build := build, tests := tests), BuildRunning, limits)
  {
  }

  // ---- The verdict ----

  /** What a run in the worktree comes back with. */
  datatype RunResult = RunResult(
    policy: seq<PolicyReference>,
    progress: Progress,
    operationFailed: bool,
    cleanup: bool,
    sourceUnchanged: bool,
    errors: seq<string>,
    verifiedAt: nat)

  /** Success as `finish_verification` computes it. */
  predicate Succeeded(result: RunResult) {
    && !result.operationFailed && result.errors == [] && result.cleanup && result.sourceUnchanged
    && result.progress.apply == Passed && result.progress.reparse == Passed
    && result.progress.build == Passed && result.progress.diff == Passed
  }

  lemma SuccessMeansBuilt(result: RunResult, state: ProposalState, limits: EditPlanLimits)
    requires ProgressOk(result.progress, state, limits) && Succeeded(result)
    ensures state == BuildRunning && result.progress.verifiedDiff.Some?
    ensures DiffWithinLimits(limits, result.progress.verifiedDiff.value.statistics)
  {
  }

  function VerdictReport(record: ProposalRecord, result: RunResult): VerificationReport {
    var p := result.progress;
    VerificationReport(
      record.proposalId, Succeeded(result), result.sourceUnchanged, !result.cleanup, p.apply, p.reparse, p.build,
      p.tests, p.diff, result.policy, if Succeeded(result) then Some(result.verifiedAt) else None, result.errors)
  }

  function VerdictDiff(result: RunResult): Option<VerifiedDiff> {
    if Succeeded(result) then result.progress.verifiedDiff else None
  }

  function VerdictChange(result: RunResult): Change {
    Transition(if Succeeded(result) then Verified else VerificationFailed, VERDICT_REASON)
  }

  /** The verdict, the policy references, and the report with the diff. */
  function VerdictChanges(record: ProposalRecord, result: RunResult): seq<Change> {
    [VerdictChange(result)]
    + [RecordPolicy(result.policy), RecordVerification(VerdictReport(record, result), VerdictDiff(result))]
  }

  lemma VerdictParts(record: ProposalRecord, result: RunResult)
    ensures VerdictChange(result).next == (if Succeeded(result) then Verified else VerificationFailed)
    ensures VerdictChange(result) == Transition(VerdictChange(result).next, VERDICT_REASON)
    ensures var report := VerdictReport(record, result);
      report.success == Succeeded(result) && report.policy == result.policy && report.proposalId == record.proposalId
    ensures VerdictDiff(result) == if Succeeded(result) then result.progress.verifiedDiff else None
    ensures VerdictChanges(record, result)
      == [VerdictChange(result)]
         + [RecordPolicy(result.policy), RecordVerification(VerdictReport(record, result), VerdictDiff(result))]
  {
    hide Succeeded;
  }

  method FinishVerification(store: ProposalStore, record: ProposalRecord, result: RunResult, ghost start: nat)
      returns (r: Result<ProposalRecord, RunError>)
    requires store.Valid() && AllOk(store.history) && SameProposal(record, store.Last())
    requires store.Last().state in VERIFIABLE + IN_WORKTREE && VerdictsFromBuild(store.history, start)
    requires ProgressOk(result.progress, store.Last().state, record.plan.limits)
    modifies store
    ensures store.Valid() && AllOk(store.history) && old(store.history) <= store.history
    ensures store.illegal == old(store.illegal)
    ensures store.Now() == old(Play(store.storage, store.Now(), VerdictChanges(record, result)))
    ensures r.Ok? <==> old(GoThrough(store.storage, store.Now(), VerdictChanges(record, result)))
    ensures r.Ok? ==>
      && r.value == store.Last() && r.value.state == (if Succeeded(result) then Verified else VerificationFailed)
      && r.value.verification == Some(VerdictReport(record, result)) && r.value.verifiedDiff == VerdictDiff(result)
      && r.value.policy == old(store.Last()).policy + result.policy
    ensures SameProposal(record, store.Last()) && VerdictsFromBuild(store.history, start)
    ensures store.Last().state in VERIFIABLE + IN_WORKTREE
    ensures r.Ok? && r.value.state == Verified ==>
      r.value.verifiedDiff.Some? && DiffWithinLimits(record.plan.limits, r.value.verifiedDiff.value.statistics)
  {
    hide *;
    store.HasHistory();
    store.HasNow();
    VerifyEdges(store.Last().state);
    VerifySets();
    VerdictParts(record, result);
    var report, diff := VerdictReport(record, result), VerdictDiff(result);
    PlayFirst(store.storage, store.Now(), VerdictChange(result),
              [RecordPolicy(result.policy), RecordVerification(report, diff)]);
    var success := Succeeded(result);
    if success {
      SuccessMeansBuilt(result, store.Last().state, record.plan.limits);
    }
    var verdict := Step(store, if success then Verified else VerificationFailed, VERDICT_REASON, start);
    SameThrough(record, old(store.Last()), store.Last());
    if verdict.Err? {
      return Err(StoreFailed(verdict.error));
    }
    store.HasNow();
    PlayTwo(store.storage, store.Now(), RecordPolicy(result.policy), RecordVerification(report, diff));
    ghost var decided := store.history;
    var noted := Note(store, result.policy);
    if noted.Err? {
      return Err(StoreFailed(noted.error));
    }
    SameThrough(record, verdict.value, noted.value);
    VerdictsSnoc(decided, start, noted.value);
    ghost var before := store.history;
    var filed := FileVerification(store, report, diff);
    if filed.Err? {
      return Err(StoreFailed(filed.error));
    }
    SameThrough(record, noted.value, filed.value);
    VerdictsSnoc(before, start, filed.value);
    return Ok(filed.value);
  }

  lemma VerificationStarts(history: seq<ProposalRecord>)
    ensures VerdictsFromBuild(history, |history|)
    ensures NOTHING_RUN == Progress(NotRun, NotRun, NotRun, NotRun, NotRun, None)
  {
  }

  lemma AcceptedState(r: ProposalRecord, options: Options, now: nat)
    requires VerificationPreconditions(r, options, now)
    ensures r.state in VERIFIABLE
  {
  }

  // ---- The whole verification ----

  /** The proposal can be read, has not lapsed, and the workspace is as the plan found it. */
  ghost predicate MayVerify(history: seq<ProposalRecord>, options: Options, world: VerifyWorld)
    requires history != []
  {
    && |history| <= MAX_RECORD_GENERATIONS && ExpiryChanges(history, world.now) == []
    && VerificationPreconditions(history[|history| - 1], options, world.nowAtCheck)
    && world.observed.Some? && !Drift(history[|history| - 1], world.observed.value)
  }

  ghost function RunChanges(record: ProposalRecord, executor: Executor, world: VerifyWorld, transactionId: string,
                            hash: string -> string): seq<Change>
  {
    if world.operationRuns then WorktreeChanges(record, executor, world, transactionId, hash) else []
  }

  ghost predicate RunPasses(record: ProposalRecord, executor: Executor, world: VerifyWorld, transactionId: string,
                            hash: string -> string)
  {
    world.operationRuns && PassesInWorktree(record, executor, world, transactionId, hash)
  }

  /** What reaches the verdict; the source reports neither cleanup nor source without a worktree. */
  function ResultOf(world: VerifyWorld, progress: Progress, ok: bool, decisions: seq<PolicyReference>): RunResult {
    var ran := world.runId.Some?;
    RunResult(world.setup + decisions + world.teardown, progress, !ok || !ran, ran && world.cleanupSuccess,
              ran && world.sourceUnchanged, if ran then world.runErrors else [], world.verifiedAt)
  }

  /** The stored report: every stage as far as it got, the decisions in order, success only if all went well. */
  ghost predicate VerdictReported(q: VerificationReport, record: ProposalRecord, world: VerifyWorld, ok: bool,
                                  stages: Progress, decisions: seq<PolicyReference>)
  {
    var ran := world.runId.Some?;
    && q.proposalId == record.proposalId
    && q.apply == stages.apply && q.reparse == stages.reparse && q.build == stages.build
    && q.tests == stages.tests && q.diff == stages.diff
    && (q.sourceUnchanged <==> ran && world.sourceUnchanged)
    && (q.leaseRecoveryRequired <==> !ran || !world.cleanupSuccess)
    && q.errors == (if ran then world.runErrors else [])
    && q.policy == world.setup + decisions + world.teardown
    && (q.success <==>
          && ok && ran && world.cleanupSuccess && world.sourceUnchanged && world.runErrors == []
          && stages.apply == Passed && stages.reparse == Passed && stages.build == Passed && stages.diff == Passed)
    && q.verifiedAt == (if q.success then Some(world.verifiedAt) else None)
  }

  lemma VerdictTells(record: ProposalRecord, world: VerifyWorld, ok: bool, stages: Progress,
                     decisions: seq<PolicyReference>)
    ensures var result := ResultOf(world, stages, ok, decisions);
      && VerdictReported(VerdictReport(record, result), record, world, ok, stages, decisions)
      && result.policy == world.setup + decisions + world.teardown
      && VerdictDiff(result) == if VerdictReport(record, result).success then stages.verifiedDiff else None
  {
  }

  /** The verdict on a run whose stages got this far. */
  ghost predicate VerdictFor(storage: Storage, before: Run, after: Run, r: Result<ProposalRecord, RunError>,
                             executor: Executor, record: ProposalRecord, world: VerifyWorld, transactionId: string,
                             progress: Progress, decisions: seq<PolicyReference>)
  {
    var hash := storage.codec.hash;
    var changes := RunChanges(record, executor, world, transactionId, hash);
    var ok := RunPasses(record, executor, world, transactionId, hash) && GoThrough(storage, before, changes);
    var result := ResultOf(world, progress, ok, decisions);
    && (r.Ok? ==>
          && r.value.state == (if Succeeded(result) then Verified else VerificationFailed)
          && r.value.verification == Some(VerdictReport(record, result)) && r.value.verifiedDiff == VerdictDiff(result))
    && progress == (if world.operationRuns
                    then StagesOf(storage, before, record, executor, world, transactionId, hash) else NOTHING_RUN)
    && decisions == (if world.operationRuns
                     then StageReferences(storage, before, record, executor, world, transactionId, hash) else [])
    && (r.Ok? ==>
          && before.history != [] && r.value.verification.Some?
          && VerdictReported(r.value.verification.value, record, world, ok, progress, decisions)
          && r.value.policy
             == before.history[|before.history| - 1].policy + (world.setup + decisions + world.teardown))
    && (ok ==> world.build.Some? && progress == GoodProgress(world) && decisions == RunDecisions(record, world))
    && |decisions| <= |record.files| + 3
    && after == Play(storage, Play(storage, before, changes), VerdictChanges(record, result))
    && (r.Ok? <==> GoThrough(storage, Play(storage, before, changes), VerdictChanges(record, result)))
  }

  /** Exactly what a verification does to the record, and when it answers. */
  ghost predicate VerifyOutcome(storage: Storage, before: Run, after: Run, r: Result<ProposalRecord, RunError>,
                                executor: Executor, options: Options, world: VerifyWorld, transactionId: string)
    requires before.history != []
  {
    if MayVerify(before.history, options, world) then
      var record := before.history[|before.history| - 1];
      exists progress, decisions ::
        VerdictFor(storage, before, after, r, executor, record, world, transactionId, progress, decisions)
    else r.Err? && after == Play(storage, before, ExpiryChanges(before.history, world.now))
  }

  lemma Outcome(storage: Storage, before: Run, after: Run, r: Result<ProposalRecord, RunError>, executor: Executor,
                options: Options, world: VerifyWorld, transactionId: string, record: ProposalRecord,
                progress: Progress, decisions: seq<PolicyReference>)
    requires before.history != [] && record == before.history[|before.history| - 1]
    requires MayVerify(before.history, options, world)
    requires VerdictFor(storage, before, after, r, executor, record, world, transactionId, progress, decisions)
    ensures VerifyOutcome(storage, before, after, r, executor, options, world, transactionId)
  {
    hide MayVerify, VerdictFor;
  }

  /** The run in the worktree makes transitions only, which leave the policy references alone. */
  lemma WorktreeMoves(storage: Storage, run: Run, record: ProposalRecord, executor: Executor, world: VerifyWorld,
                      transactionId: string, hash: string -> string)
    requires run.history != []
    ensures var history := Play(storage, run, RunChanges(record, executor, world, transactionId, hash)).history;
      history != [] && history[|history| - 1].policy == run.history[|run.history| - 1].policy
  {
    StageChanges();
    hide Play, AppliesInWorktree, ChecksInWorktree, PREPARE, APPLY_INSIDE, START_BUILD;
    PlayMoves(storage, run, RunChanges(record, executor, world, transactionId, hash));
  }

  /** The worktree is managed from outside: the operation runs in it, or it never gets to. */
  method RunManaged(store: ProposalStore, executor: Executor, record: ProposalRecord, world: VerifyWorld,
                    transactionId: string, ghost start: nat)
      returns (stages: Progress, ok: bool, references: seq<PolicyReference>)
    requires store.Valid() && AllOk(store.history) && store.Last() == record && record.state in VERIFIABLE
    requires VerdictsFromBuild(store.history, start)
    modifies store
    ensures store.Valid() && AllOk(store.history) && old(store.history) <= store.history
    ensures store.illegal == old(store.illegal)
    ensures var changes := RunChanges(record, executor, world, transactionId, store.storage.codec.hash);
      && store.Now() == old(Play(store.storage, store.Now(), changes))
      && (ok <==>
          && RunPasses(record, executor, world, transactionId, store.storage.codec.hash)
          && old(GoThrough(store.storage, store.Now(), changes)))
    ensures ok ==>
      world.build.Some? && stages == GoodProgress(world) && references == RunDecisions(record, world)
    ensures stages
      == (if world.operationRuns
          then old(StagesOf(store.storage, store.Now(), record, executor, world, transactionId,
                            store.storage.codec.hash))
          else NOTHING_RUN)
    ensures references
      == (if world.operationRuns
          then old(StageReferences(store.storage, store.Now(), record, executor, world, transactionId,
                                   store.storage.codec.hash))
          else [])
    ensures SameProposal(record, store.Last()) && VerdictsFromBuild(store.history, start)
    ensures store.Last().state in VERIFIABLE + IN_WORKTREE
    ensures ProgressOk(stages, store.Last().state, record.plan.limits)
    ensures |references| <= |record.files| + 3
  {
    hide AllOk, Good, SameProposal, VerdictsFromBuild, ProgressOk, Allowed, Attempt, Play, GoThrough, WorktreeChanges,
         PassesInWorktree, RunDecisions, StagesOf, StageReferences, GoodProgress;
    stages, ok, references := NOTHING_RUN, false, [];
    Checked(NOTHING_RUN, record.state, record.plan.limits);
    SameAsItself(record);
    PlayNothing(store.storage, store.Now());
    if world.operationRuns {
      stages, ok, references := RunInWorktree(store, executor, record, world, transactionId, store.storage.codec.hash,
                                              start);
    }
  }

  /** From the passed checks on. */
  method VerifyChecked(store: ProposalStore, executor: Executor, record: ProposalRecord, world: VerifyWorld,
                       transactionId: string, ghost start: nat)
      returns (r: Result<ProposalRecord, RunError>, ghost progress: Progress, ghost decisions: seq<PolicyReference>)
    requires store.Valid() && AllOk(store.history) && store.Last() == record && record.state in VERIFIABLE
    requires VerdictsFromBuild(store.history, start)
    modifies store
    ensures store.Valid() && AllOk(store.history) && old(store.history) <= store.history
    ensures store.illegal == old(store.illegal)
    ensures VerdictFor(store.storage, old(store.Now()), store.Now(), r, executor, record, world, transactionId,
                       progress, decisions)
    ensures SameProposal(record, store.Last()) && VerdictsFromBuild(store.history, start)
    ensures store.Last().state in VERIFIABLE + IN_WORKTREE
    ensures r.Ok? ==> r.value == store.Last() && r.value.state in {Verified, VerificationFailed}
    ensures r.Ok? ==> r.value.verification.Some? && (r.value.verification.value.success <==> r.value.state == Verified)
    ensures r.Ok? && r.value.state == Verified ==>
      r.value.verifiedDiff.Some? && DiffWithinLimits(record.plan.limits, r.value.verifiedDiff.value.statistics)
  {
    hide AllOk, Good, SameProposal, VerdictsFromBuild, ProgressOk, Allowed, Attempt, Play, GoThrough, RunChanges,
         RunPasses, VerdictChanges, VerdictReport, VerdictDiff, RunDecisions, DiffWithinLimits, Succeeded,
         VerdictReported, StagesOf, StageReferences, GoodProgress;
    ghost var before := store.Now();
    var stages, ok, references := RunManaged(store, executor, record, world, transactionId, start);
    var result := ResultOf(world, stages, ok, references);
    VerdictParts(record, result);
    VerdictTells(record, world, ok, stages, references);
    WorktreeMoves(store.storage, before, record, executor, world, transactionId, store.storage.codec.hash);
    r := FinishVerification(store, record, result, start);
    progress, decisions := stages, references;
  }

  /**
   `verify_edit_proposal`. From a state it accepts it never asks for an illegal transition; a verdict of
   success is reached from a running build alone; and what it files as verified has a diff within the
   plan's limits.
   */
  method VerifyEditProposal(store: ProposalStore, executor: Executor, options: Options, world: VerifyWorld,
                            transactionId: string)
      returns (r: Result<ProposalRecord, RunError>)
    requires store.Valid() && AllOk(store.history)
    modifies store
    ensures store.Valid() && AllOk(store.history) && old(store.history) <= store.history
    ensures VerifyOutcome(store.storage, old(store.Now()), store.Now(), r, executor, options, world, transactionId)
    ensures SameProposal(old(store.Last()), store.Last())
    ensures old(store.Last()).state in VERIFIABLE ==> store.illegal == old(store.illegal)
    ensures VerdictsFromBuild(store.history, |old(store.history)|)
    ensures store.history != old(store.history) ==> store.Last().state in VERIFIABLE + IN_WORKTREE + {Expired}
    ensures store.history != old(store.history) ==>
      old(store.Last()).state in VERIFIABLE || IsExpired(old(store.Last()), world.now)
    ensures r.Ok? ==> r.value == store.Last() && r.value.state in {Verified, VerificationFailed}
    ensures r.Ok? ==> r.value.verification.Some? && (r.value.verification.value.success <==> r.value.state == Verified)
    ensures r.Ok? && r.value.state == Verified ==>
      r.value.verifiedDiff.Some? && DiffWithinLimits(r.value.plan.limits, r.value.verifiedDiff.value.statistics)
  {
    hide AllOk, Good, SameProposal, SameReports, VerdictsFromBuild, Allowed, Attempt, Play, GoThrough, VerdictFor,
         Drift, VerificationPreconditions, DiffWithinLimits, IsExpired;
    SameAsItself(store.Last());
    VerificationStarts(store.history);
    ghost var before := store.Now();
    PlayNothing(store.storage, before);
    PlayGrows(store.storage, before, ExpiryChanges(before.history, world.now));
    var expired := ExpireFirst(store, world.now);
    if store.history != old(store.history) {
      VerdictsSnoc(old(store.history), |before.history|, expired.value);
    }
    if expired.Err? {
      return Err(StoreFailed(expired.error));
    }
    var record := expired.value;
    var accepted := CheckPreconditions(record, options, world.nowAtCheck);
    if !accepted {
      return Err(NotApplicable);
    }
    AcceptedState(record, options, world.nowAtCheck);
    var undisturbed := CheckUndisturbed(record, world.observed);
    if !undisturbed {
      return Err(WorkspaceDrifted);
    }
    assert store.history == before.history && ExpiryChanges(before.history, world.now) == [];
    assert record == before.history[|before.history| - 1];
    assert MayVerify(before.history, options, world);
    ghost var progress, decisions;
    r, progress, decisions := VerifyChecked(store, executor, record, world, transactionId, |before.history|);
    Outcome(store.storage, before, store.Now(), r, executor, options, world, transactionId, record, progress,
            decisions);
    SameThrough(old(store.Last()), record, store.Last());
    SamePlanAndFiles(record, store.Last());
  }

  // ---- Success ----

  /** Every stage passes, the worktree is cleaned up, and the source is as it was. */
  ghost predicate VerifyGoesWell(record: ProposalRecord, executor: Executor, world: VerifyWorld, transactionId: string,
                                 hash: string -> string)
  {
    && RunPasses(record, executor, world, transactionId, hash) && world.runId.Some?
    && world.cleanupSuccess && world.sourceUnchanged && world.runErrors == []
  }

  /** The six updates of a verification that succeeds. */
  function VerifiedChanges(record: ProposalRecord, world: VerifyWorld): seq<Change>
    requires world.build.Some?
  {
    [PREPARE, APPLY_INSIDE, START_BUILD]
    + VerdictChanges(record, ResultOf(world, GoodProgress(world), true, RunDecisions(record, world)))
  }

  lemma PassedBuild(record: ProposalRecord, executor: Executor, world: VerifyWorld, transactionId: string,
                    hash: string -> string)
    requires RunPasses(record, executor, world, transactionId, hash)
    ensures world.build.Some? && world.build.value.0 == Passed
    ensures RunChanges(record, executor, world, transactionId, hash) == [PREPARE, APPLY_INSIDE, START_BUILD]
  {
    hide AllMatch, AppliesInWorktree, ChecksInWorktree, PREPARE, APPLY_INSIDE, START_BUILD;
  }

  /** A proposal is verified exactly when everything goes well and all six updates go through. */
  lemma VerifiedIff(storage: Storage, before: Run, after: Run, r: Result<ProposalRecord, RunError>, executor: Executor,
                    record: ProposalRecord, world: VerifyWorld, transactionId: string, progress: Progress,
                    decisions: seq<PolicyReference>)
    requires VerdictFor(storage, before, after, r, executor, record, world, transactionId, progress, decisions)
    ensures r.Ok? && r.value.state == Verified <==>
      && VerifyGoesWell(record, executor, world, transactionId, storage.codec.hash)
      && world.build.Some? && GoThrough(storage, before, VerifiedChanges(record, world))
    ensures r.Ok? && r.value.state == Verified ==>
      world.build.Some? && after == Play(storage, before, VerifiedChanges(record, world))
  {
    hide Play, GoThrough, PassesInWorktree, WorktreeChanges, VerdictChanges, RunDecisions, RunPasses, RunChanges,
         PREPARE, APPLY_INSIDE, START_BUILD;
    var hash := storage.codec.hash;
    if RunPasses(record, executor, world, transactionId, hash) {
      PassedBuild(record, executor, world, transactionId, hash);
      var good := ResultOf(world, GoodProgress(world), true, RunDecisions(record, world));
      PlayConcat(storage, before, [PREPARE, APPLY_INSIDE, START_BUILD], VerdictChanges(record, good));
    }
  }

  lemma RunIsLegal(record: ProposalRecord, executor: Executor, world: VerifyWorld, transactionId: string,
                   hash: string -> string)
    requires record.state in VERIFIABLE
    ensures var changes := RunChanges(record, executor, world, transactionId, hash);
      |changes| <= 3 && Legal(record.state, record.proposalId, changes) && Rooms(changes) == 0
  {
    PreparedReason();
    InWorktreeReason();
    BuildReason();
    VerifyEdges(record.state);
    hide ReasonOk, CanTransitionTo, Legal, Rooms, AppliesInWorktree, ChecksInWorktree;
    var id := record.proposalId;
    LegalNothing(record.state, id);
    LegalNothing(WorktreePrepared, id);
    LegalNothing(WorktreeApplied, id);
    LegalNothing(BuildRunning, id);
    LegalFirst(WorktreeApplied, id, START_BUILD, []);
    LegalFirst(WorktreePrepared, id, APPLY_INSIDE, []);
    LegalFirst(WorktreePrepared, id, APPLY_INSIDE, [START_BUILD] + []);
    LegalFirst(record.state, id, PREPARE, []);
    LegalFirst(record.state, id, PREPARE, [APPLY_INSIDE] + []);
    LegalFirst(record.state, id, PREPARE, [APPLY_INSIDE] + ([START_BUILD] + []));
    assert [PREPARE] + [] == [PREPARE] && [PREPARE] + ([APPLY_INSIDE] + []) == [PREPARE, APPLY_INSIDE];
    assert [PREPARE] + ([APPLY_INSIDE] + ([START_BUILD] + [])) == [PREPARE, APPLY_INSIDE, START_BUILD];
  }

  lemma PreparedReason()
    ensures ReasonOk(PREPARED_REASON)
  {
    ShortReason(PREPARED_REASON);
  }

  lemma InWorktreeReason()
    ensures ReasonOk(IN_WORKTREE_REASON)
  {
    ShortReason(IN_WORKTREE_REASON);
  }

  lemma BuildReason()
    ensures ReasonOk(BUILD_REASON)
  {
    ShortReason(BUILD_REASON);
  }

  lemma VerdictReason()
    ensures ReasonOk(VERDICT_REASON)
  {
    ShortReason(VERDICT_REASON);
  }

  lemma VerdictIsLegal(record: ProposalRecord, result: RunResult, state: ProposalState, id: string)
    requires record.proposalId == id
    requires if Succeeded(result) then state == BuildRunning else state in VERIFIABLE + IN_WORKTREE
    ensures var changes := VerdictChanges(record, result);
      |changes| == 3 && Legal(state, id, changes) && Rooms(changes) == |result.policy|
  {
    VerdictReason();
    VerifyEdges(state);
    VerifySets();
    hide ReasonOk, CanTransitionTo, Legal, Rooms, Succeeded;
    VerdictParts(record, result);
    var next := VerdictChange(result).next;
    var report := RecordVerification(VerdictReport(record, result), VerdictDiff(result));
    LegalNothing(next, id);
    LegalFirst(next, id, report, []);
    LegalFirst(next, id, RecordPolicy(result.policy), [report] + []);
    LegalFirst(state, id, VerdictChange(result), [RecordPolicy(result.policy)] + ([report] + []));
    assert VerdictChanges(record, result)
      == [VerdictChange(result)] + ([RecordPolicy(result.policy)] + ([report] + []));
  }

  lemma RunSettles(record: ProposalRecord, executor: Executor, world: VerifyWorld, transactionId: string,
                   hash: string -> string)
    requires record.state in VERIFIABLE
    ensures StateAfter(record.state, RunChanges(record, executor, world, transactionId, hash))
      in VERIFIABLE + IN_WORKTREE
    ensures RunPasses(record, executor, world, transactionId, hash) ==>
      StateAfter(record.state, RunChanges(record, executor, world, transactionId, hash)) == BuildRunning
  {
    VerifySets();
    StageChanges();
    hide AppliesInWorktree, ChecksInWorktree, BuildsInWorktree, PREPARE, APPLY_INSIDE, START_BUILD, VERIFIABLE,
         IN_WORKTREE, StateAfter;
    StateNothing(record.state);
    StateNothing(WorktreePrepared);
    StateNothing(WorktreeApplied);
    StateNothing(BuildRunning);
    var three := [START_BUILD] + [];
    var two := [APPLY_INSIDE] + three;
    StateFirst(WorktreeApplied, START_BUILD, []);
    StateFirst(WorktreePrepared, APPLY_INSIDE, three);
    StateFirst(record.state, PREPARE, two);
    assert [PREPARE] + two == [PREPARE, APPLY_INSIDE, START_BUILD];
    assert StateAfter(record.state, [PREPARE, APPLY_INSIDE, START_BUILD]) == BuildRunning;
    StateFirst(WorktreePrepared, APPLY_INSIDE, []);
    StateFirst(record.state, PREPARE, [APPLY_INSIDE] + []);
    assert [PREPARE] + ([APPLY_INSIDE] + []) == [PREPARE, APPLY_INSIDE];
    assert StateAfter(record.state, [PREPARE, APPLY_INSIDE]) == WorktreeApplied;
    StateFirst(record.state, PREPARE, []);
    assert [PREPARE] + [] == [PREPARE];
  }

  lemma SucceededIff(record: ProposalRecord, executor: Executor, world: VerifyWorld, transactionId: string,
                     hash: string -> string, progress: Progress, ok: bool, decisions: seq<PolicyReference>)
    requires ok ==> world.build.Some? && progress == GoodProgress(world)
    requires ok <==> RunPasses(record, executor, world, transactionId, hash)
    ensures Succeeded(ResultOf(world, progress, ok, decisions))
      <==> VerifyGoesWell(record, executor, world, transactionId, hash)
    ensures |ResultOf(world, progress, ok, decisions).policy| == |world.setup| + |decisions| + |world.teardown|
  {
    if ok {
      PassedBuild(record, executor, world, transactionId, hash);
    }
    hide RunPasses, RunChanges;
  }

  /** When no store write fails, every verification that passes its checks is filed, with the verdict it deserves. */
  lemma VerifyAnswers(storage: Storage, before: Run, after: Run, r: Result<ProposalRecord, RunError>,
                      executor: Executor, record: ProposalRecord, world: VerifyWorld, transactionId: string,
                      progress: Progress, decisions: seq<PolicyReference>, n: nat, room: nat)
    requires before.history != [] && record == before.history[|before.history| - 1] && record.state in VERIFIABLE
    requires VerdictFor(storage, before, after, r, executor, record, world, transactionId, progress, decisions)
    requires Reliable(storage, before, 6 + n, |world.setup| + |world.teardown| + |record.files| + 3 + room)
    ensures r.Ok?
    ensures r.value.state == Verified <==> VerifyGoesWell(record, executor, world, transactionId, storage.codec.hash)
    ensures Reliable(storage, after, n, room)
  {
    hide ReasonOk, Reliable, Play, GoThrough, RunDecisions, RunPasses, RunChanges, VerdictChanges, VerifyGoesWell,
         Succeeded, ResultOf, Legal, Rooms, StateAfter, PREPARE, APPLY_INSIDE, START_BUILD;
    var hash := storage.codec.hash;
    var changes := RunChanges(record, executor, world, transactionId, hash);
    var left := |world.setup| + |world.teardown| + |record.files| + 3 + room;
    RunIsLegal(record, executor, world, transactionId, hash);
    RunSettles(record, executor, world, transactionId, hash);
    ReliableLess(storage, before, 6 + n, left, |changes| + (3 + n), left);
    ReliableScript(storage, before, changes, 3 + n, left);
    PlaySettles(storage, before, changes);
    var between := Play(storage, before, changes);
    var ok := RunPasses(record, executor, world, transactionId, hash);
    var result := ResultOf(world, progress, ok, decisions);
    SucceededIff(record, executor, world, transactionId, hash, progress, ok, decisions);
    WellMeansPassed(record, executor, world, transactionId, hash);
    VerdictIsLegal(record, result, between.history[|between.history| - 1].state, record.proposalId);
    ReliableLess(storage, between, 3 + n, left, 3 + n, |result.policy| + room);
    ReliableScript(storage, between, VerdictChanges(record, result), n, room);
  }

  lemma WellMeansPassed(record: ProposalRecord, executor: Executor, world: VerifyWorld, transactionId: string,
                        hash: string -> string)
    ensures VerifyGoesWell(record, executor, world, transactionId, hash)
      ==> RunPasses(record, executor, world, transactionId, hash)
  {
    hide RunPasses;
  }
}
