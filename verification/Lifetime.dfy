/**
 A proposal from its creation to its rollback, for every plan whose snapshots fit the workspace: what the
 procedures promise under conditions is promised of something.
 */
module Lifetime {
  import opened Wrappers
  import opened EditSchema
  import opened Ordering
  import opened ProposalSchema
  import opened IntentBinding
  import opened Records
  import opened RecordFiles
  import opened StoreRuns
  import opened Store
  import opened Transactions
  import opened Lifecycle
  import opened Apply
  import opened Rollback
  import opened Verification

  const TRANSACTION := "t"

  // ---- A workspace, an executor and a schedule that do what they should ----

  /** Snapshots of different files that say of each whether it existed, with the hashes of their contents. */
  ghost predicate WellTaken(snapshots: seq<FileSnapshot>, hash: string -> string) {
    && (forall i, j :: 0 <= i < j < |snapshots| ==> snapshots[i].path != snapshots[j].path)
    && forall i :: 0 <= i < |snapshots| ==>
         && (snapshots[i].status == Modified <==> snapshots[i].baseContent.Some?)
         && snapshots[i].proposedHash == hash(snapshots[i].proposedContent)
  }

  function CommitAll(d: Disk, mutations: seq<FileMutation>, id: string): (ApplyOutcome, Disk) {
    if Applicable(d.files, mutations) then
      (ApplyFinished(true, false, None, []),
       Disk(Written(d.files, mutations), d.journal[id := Save(d.files, mutations)]))
    else (ApplyFinished(false, false, None, ["refused"]), d)
  }

  function PutBack(d: Disk, id: string): (RollbackOutcome, Disk) {
    if id in d.journal then (RollbackFinished(true, []), Disk(Restore(d.files, d.journal[id]), d.journal))
    else (RollbackFinished(false, []), d)
  }

  /** An executor that commits what fits the files and refuses all else, and can always roll back. */
  function Faithful(): Executor {
    Executor(CommitAll, PutBack)
  }

  lemma CommitsAll()
    ensures forall d, mutations, id :: Committed(CommitAll(d, mutations, id).0) ==>
      CommitAll(d, mutations, id).1 == Disk(Written(d.files, mutations), d.journal[id := Save(d.files, mutations)])
  {
    hide Written, Save, Applicable;
  }

  lemma PutsBack(d: Disk, id: string)
    ensures RolledBackBy(PutBack(d, id).0) ==>
      id in d.journal && PutBack(d, id).1.files == Restore(d.files, d.journal[id])
  {
    hide Restore;
  }

  lemma FaithfulIsAllOrNothing()
    ensures AllOrNothing(Faithful())
  {
    hide Written, Save, Restore, Committed, RolledBackBy, CommitAll, PutBack;
    forall d, mutations, id
      ensures Faithful().apply(d, mutations, id) == CommitAll(d, mutations, id)
      ensures Faithful().rollback(d, id) == PutBack(d, id)
    {
    }
    CommitsAll();
    forall d, id
      ensures RolledBackBy(PutBack(d, id).0) ==>
        id in d.journal && PutBack(d, id).1.files == Restore(d.files, d.journal[id])
    {
      PutsBack(d, id);
    }
  }

  lemma FaithfulCommits(d: Disk, record: ProposalRecord, id: string)
    requires BasesKept(record.files) && Matches(d.files, record.files, false)
    ensures var (outcome, after) := Transacted(Faithful(), d, record, id);
      && Committed(outcome) && after.files == Written(d.files, ProposalMutations(record.files))
      && RolledBackBy(Faithful().rollback(after, id).0)
  {
    hide Written, Save, Restore, Applicable, ProposalMutations, BasesKept, Matches;
    ApplicableIffBase(d.files, record.files);
  }

  lemma TakenFacts(files: Files, snapshots: seq<FileSnapshot>, hash: string -> string)
    requires WellTaken(snapshots, hash) && AllMatch(files, snapshots, false, hash)
    ensures BasesKept(snapshots) && Matches(files, snapshots, false)
  {
  }

  lemma LastWrite(files: Files, mutations: seq<FileMutation>, path: string)
    requires mutations != []
    ensures var last := mutations[|mutations| - 1];
      Read(Written(files, mutations), path)
      == if path == last.path then Some(last.after) else Read(Written(files, mutations[..|mutations| - 1]), path)
  {
    hide Touched;
  }

  /** Writing the proposal's mutations makes every file as proposed. */
  lemma {:induction false} WrittenIsProposed(files: Files, snapshots: seq<FileSnapshot>, mutations: seq<FileMutation>,
                                             hash: string -> string)
    requires WellTaken(snapshots, hash) && |mutations| == |snapshots|
    requires forall i :: 0 <= i < |snapshots| ==>
      mutations[i].path == snapshots[i].path && mutations[i].after == snapshots[i].proposedContent
    ensures AllMatch(Written(files, mutations), snapshots, true, hash)
    decreases |snapshots|
  {
    hide Written, Read;
    if snapshots != [] {
      var n := |snapshots| - 1;
      WrittenIsProposed(files, snapshots[..n], mutations[..n], hash);
      forall i | 0 <= i < |snapshots| ensures SnapshotMatches(Written(files, mutations), snapshots[i], true, hash) {
        LastWrite(files, mutations, snapshots[i].path);
        assert i < n ==> snapshots[i] in snapshots[..n];
      }
    }
  }

  function Working(now: nat, n: nat): (schedule: seq<Tick>)
    ensures |schedule| == n && forall i :: 0 <= i < n ==> Works(schedule[i]) && schedule[i].now == now
  {
    seq(n, _ => Tick(now, true, true, true))
  }

  // ---- What the outside world shows ----

  function OptionsOf(plan: EditPlan): Options {
    Options(plan.workspaceId, plan.profile, "request")
  }

  /** The repository as the plan found it. */
  function Undisturbed(r: ProposalRecord): Observed {
    Observed(true, r.plan.baseHead, r.plan.workingTreeDigest, r.workspaceRootHash)
  }

  function SmallDiff(hash: string -> string): VerifiedDiff {
    VerifiedDiff("", hash(""), DiffStatistics(0, 0, 0, 0, 0, 0, 0, 0, 0, 0))
  }

  /** A worktree like the workspace, where everything is granted and passes. */
  function Verifying(r: ProposalRecord, files: Files, now: nat, hash: string -> string): VerifyWorld {
    var written := Written(files, WorktreeMutationsOf(files, r.files));
    VerifyWorld(
      now, now, Some(Undisturbed(r)), [], [], true, Some("run"), Disk(files, map[]),
      seq(|r.files|, _ => Granted("write")), Granted("apply"), Passed, Granted("diff"), Some(SmallDiff(hash)), true,
      Granted("build"), Some((Passed, Passed)), written, true, true, [], now)
  }

  function Applies(r: ProposalRecord, now: nat, hash: string -> string): ApplyWorld {
    ApplyWorld(now, now, Some(Undisturbed(r)), Decided("preflight", true), Some("approval"), Granted("consumed"),
               Passed, Some(SmallDiff(hash)), now)
  }

  function RollsBack(r: ProposalRecord, now: nat, hash: string -> string): RollbackWorld {
    RollbackWorld(Some(Undisturbed(r)), Some(SmallDiff(hash)), Decided("preflight", true), Some("approval"),
                  Granted("consumed"), Passed, Some(Undisturbed(r)), now)
  }

  // ---- Creation ----

  /** A plan that can be proposed here and now. */
  ghost predicate Proposable(storage: Storage, validated: ValidatedEditPlan, files: Files, now: nat) {
    && storage.id == validated.plan.planId && DirectoryNameOk(storage.id)
    && validated.plan.workspaceRootHash == storage.workspaceHash && now <= validated.plan.expiresAt
    && (forall r :: storage.size(r) <= MAX_RECORD_BYTES)
    && WellTaken(validated.files, storage.codec.hash) && AllMatch(files, validated.files, false, storage.codec.hash)
  }

  lemma NewIsReliable(storage: Storage, validated: ValidatedEditPlan, files: Files, now: nat, n: nat, room: nat)
    requires Proposable(storage, validated, files, now)
    requires n <= 16 && room <= MAX_POLICY_REFERENCES
    ensures Creatable(storage, validated, None, Tick(now, true, true, true))
    ensures var r := FirstRecord(validated, None, storage.workspaceHash, now);
      && Reliable(storage, Run([r], Working(now, n)), n, room)
      && ValidRecord(r, storage.id, storage.workspaceHash, storage.codec) && AllOk([r])
      && r.state == Validated && r.files == validated.files && r.plan == validated.plan && r.createdAt == now
      && r.workspaceId == validated.plan.workspaceId && !IsExpired(r, now)
  {
    hide WellTaken, AllMatch, DirectoryNameOk;
    CreatedIsValidIff(validated, storage.workspaceHash, now, storage.codec);
    hide ValidRecord;
  }

  /** `create`: the first generation, with a schedule that works. */
  method Propose(storage: Storage, validated: ValidatedEditPlan, files: Files, now: nat, ghost room: nat)
      returns (store: ProposalStore, record: ProposalRecord)
    requires Proposable(storage, validated, files, now) && room <= MAX_POLICY_REFERENCES
    ensures record == FirstRecord(validated, None, storage.workspaceHash, now)
    ensures fresh(store) && store.Valid() && AllOk(store.history) && store.storage == storage
    ensures store.history == [record] && Reliable(storage, store.Now(), 16, room)
  {
    hide *;
    WorkingLater(now, 16);
    NewIsReliable(storage, validated, files, now, 16, room);
    store := new ProposalStore(storage, 0, Working(now, 17));
    store.IsNew();
    ProposableFacts(storage, validated, files, now);
    var created := store.CreateRecord(validated, None);
    store.HasNow();
    record := created.value;
  }

  lemma WorkingLater(now: nat, n: nat)
    ensures FirstTick(Working(now, n + 1)) == Tick(now, true, true, true)
    ensures LaterTicks(Working(now, n + 1)) == Working(now, n)
  {
  }

  lemma ProposableFacts(storage: Storage, validated: ValidatedEditPlan, files: Files, now: nat)
    requires Proposable(storage, validated, files, now)
    ensures storage.id == validated.plan.planId
    ensures WellTaken(validated.files, storage.codec.hash)
    ensures AllMatch(files, validated.files, false, storage.codec.hash)
  {
    hide WellTaken, AllMatch, DirectoryNameOk;
  }

  // ---- Verification ----

  lemma BaseIsCheckedOut(files: Files, snapshots: seq<FileSnapshot>, hash: string -> string)
    requires WellTaken(snapshots, hash) && AllMatch(files, snapshots, false, hash)
    ensures forall file :: file in snapshots ==> BaseAt(files, file)
  {
    hide NormalizeLineEndings;
  }

  lemma WillVerify(history: seq<ProposalRecord>, record: ProposalRecord, files: Files, now: nat, hash: string -> string)
    requires history == [record] && record.state == Validated && !IsExpired(record, now)
    requires record.workspaceId == record.plan.workspaceId
    requires WellTaken(record.files, hash) && AllMatch(files, record.files, false, hash)
    ensures var world := Verifying(record, files, now, hash);
      && MayVerify(history, OptionsOf(record.plan), world)
      && VerifyGoesWell(record, Faithful(), world, TRANSACTION, hash)
      && |world.setup| + |world.teardown| + |record.files| + 3 <= |record.files| + 3
      && world.build == Some((Passed, Passed)) && world.git == Some(SmallDiff(hash))
  {
    var world := Verifying(record, files, now, hash);
    BaseIsCheckedOut(files, record.files, hash);
    var mutations := WorktreeMutationsOf(files, record.files);
    WrittenIsProposed(files, record.files, mutations, hash);
    WorktreeApplicable(files, record.files);
    hide AllMatch, WellTaken, BaseAt, Written, TRANSACTION, Applicable;
    assert InWorktree(record, Faithful(), world, TRANSACTION).1.files == Written(files, mutations);
    assert AppliesInWorktree(record, Faithful(), world, TRANSACTION);
  }

  /** What a verification in which everything went well leaves in the record. */
  predicate VerifiedWell(r: ProposalRecord, hash: string -> string) {
    && r.state == Verified && r.verification.Some? && r.verification.value.success
    && !r.verification.value.leaseRecoveryRequired && BuildPassed(r) && r.verifiedDiff == Some(SmallDiff(hash))
  }

  lemma WasVerifiedWell(storage: Storage, before: Run, after: Run, r: Result<ProposalRecord, RunError>,
                        record: ProposalRecord, world: VerifyWorld, progress: Progress,
                        decisions: seq<PolicyReference>)
    requires VerdictFor(storage, before, after, r, Faithful(), record, world, TRANSACTION, progress, decisions)
    requires VerifyGoesWell(record, Faithful(), world, TRANSACTION, storage.codec.hash)
    requires r.Ok? && r.value.state == Verified
    requires world.build == Some((Passed, Passed)) && world.git == Some(SmallDiff(storage.codec.hash))
    ensures VerifiedWell(r.value, storage.codec.hash)
  {
    hide VerifyGoesWell, RunPasses, RunChanges, VerdictChanges, Play, GoThrough, TRANSACTION, SmallDiff, RunDecisions;
    VerifiedIff(storage, before, after, r, Faithful(), record, world, TRANSACTION, progress, decisions);
    hide VerifiedChanges, Succeeded;
  }

  /** `create` and `verify`. */
  method UntilVerified(storage: Storage, validated: ValidatedEditPlan, files: Files, now: nat)
      returns (store: ProposalStore, verified: ProposalRecord)
    requires Proposable(storage, validated, files, now) && |validated.files| + 7 <= MAX_POLICY_REFERENCES
    ensures fresh(store) && store.Valid() && AllOk(store.history) && store.storage == storage
    ensures verified == store.Last() && VerifiedWell(verified, storage.codec.hash)
    ensures SameProposal(FirstRecord(validated, None, storage.workspaceHash, now), verified)
    ensures Reliable(storage, store.Now(), 10, 4)
  {
    hide *;
    ghost var room := |validated.files| + 7;
    var record;
    store, record := Propose(storage, validated, files, now, room);
    store.HasHistory();
    store.HasNow();
    ghost var before := store.Now();
    NewIsReliable(storage, validated, files, now, 16, room);
    ProposableFacts(storage, validated, files, now);
    var world := Verifying(record, files, now, storage.codec.hash);
    WillVerify(store.history, record, files, now, storage.codec.hash);
    var r := VerifyEditProposal(store, Faithful(), OptionsOf(record.plan), world, TRANSACTION);
    store.HasHistory();
    store.HasNow();
    ghost var progress, decisions := VerdictOf(storage, before, store.Now(), r, record, world);
    NewIsVerifiable(record);
    ReliableLess(storage, before, 16, room, 6 + 10, |world.setup| + |world.teardown| + |record.files| + 3 + 4);
    VerifyAnswers(storage, before, store.Now(), r, Faithful(), record, world, TRANSACTION, progress, decisions, 10, 4);
    WasVerifiedWell(storage, before, store.Now(), r, record, world, progress, decisions);
    verified := r.value;
  }

  lemma NewIsVerifiable(record: ProposalRecord)
    requires record.state == Validated
    ensures record.state in VERIFIABLE
  {
  }

  lemma VerdictOf(storage: Storage, before: Run, after: Run, r: Result<ProposalRecord, RunError>,
                  record: ProposalRecord, world: VerifyWorld)
      returns (progress: Progress, decisions: seq<PolicyReference>)
    requires before.history != [] && record == before.history[|before.history| - 1]
    requires MayVerify(before.history, OptionsOf(record.plan), world)
    requires VerifyOutcome(storage, before, after, r, Faithful(), OptionsOf(record.plan), world, TRANSACTION)
    ensures VerdictFor(storage, before, after, r, Faithful(), record, world, TRANSACTION, progress, decisions)
  {
    hide MayVerify, VerdictFor;
    progress, decisions :|
      VerdictFor(storage, before, after, r, Faithful(), record, world, TRANSACTION, progress, decisions);
  }

  // ---- Apply and rollback ----

  lemma TransactionReasons()
    ensures ReasonOk(APPLYING_REASON + TRANSACTION) && ReasonOk(ROLLING_BACK_REASON + TRANSACTION)
  {
    ShortReason(APPLYING_REASON + TRANSACTION);
    ShortReason(ROLLING_BACK_REASON + TRANSACTION);
  }

  lemma WillSurvive(record: ProposalRecord, disk: Disk, now: nat, hash: string -> string)
    requires VerifiedWell(record, hash)
    requires WellTaken(record.files, hash) && AllMatch(disk.files, record.files, false, hash)
    ensures Survives(Faithful(), disk, record, SmallDiff(hash), Applies(record, now, hash), TRANSACTION, hash)
  {
    TakenFacts(disk.files, record.files, hash);
    FaithfulCommits(disk, record, TRANSACTION);
    WrittenIsProposed(disk.files, record.files, ProposalMutations(record.files), hash);
    hide AllMatch, WellTaken, Written, TRANSACTION, Transacted, SmallDiff, BuildPassed, Undisturbed;
  }

  lemma WillApply(storage: Storage, history: seq<ProposalRecord>, record: ProposalRecord, files: Files, now: nat)
    requires history != [] && record == history[|history| - 1] && |history| <= MAX_RECORD_GENERATIONS
    requires VerifiedWell(record, storage.codec.hash) && now <= record.expiresAt
    requires record.workspaceId == record.plan.workspaceId
    requires WellTaken(record.files, storage.codec.hash) && AllMatch(files, record.files, false, storage.codec.hash)
    ensures ApplyGoesWell(storage, history, Disk(files, map[]), Faithful(), OptionsOf(record.plan),
                          Applies(record, now, storage.codec.hash), TRANSACTION)
  {
    TransactionReasons();
    WillSurvive(record, Disk(files, map[]), now, storage.codec.hash);
    MayBeApplied(history, record, files, now, storage.codec.hash);
    hide MayApply, Applies, AllMatch, WellTaken, TRANSACTION, ReasonOk, Survives, Faithful, BuildPassed, ApplyApproved;
  }

  lemma MayBeApplied(history: seq<ProposalRecord>, record: ProposalRecord, files: Files, now: nat,
                     hash: string -> string)
    requires history != [] && record == history[|history| - 1] && |history| <= MAX_RECORD_GENERATIONS
    requires VerifiedWell(record, hash) && now <= record.expiresAt && record.workspaceId == record.plan.workspaceId
    requires AllMatch(files, record.files, false, hash)
    ensures MayApply(history, files, OptionsOf(record.plan), Applies(record, now, hash), hash)
    ensures ApplyApproved(Applies(record, now, hash))
  {
    hide AllMatch, WellTaken, Survives, Faithful;
  }

  lemma WillRollBack(record: ProposalRecord, now: nat, hash: string -> string)
    requires record.verifiedDiff == Some(SmallDiff(hash))
    ensures Welcomed(record, RollsBack(record, now, hash)) && Sound(record, RollsBack(record, now, hash))
    ensures |ApplyDecisions(Applies(record, now, hash))| == 2 && |RollbackDecisions(RollsBack(record, now, hash))| == 2
  {
    hide SmallDiff;
  }

  lemma VerifiedFacts(storage: Storage, validated: ValidatedEditPlan, files: Files, now: nat, record: ProposalRecord,
                      run: Run)
    requires Proposable(storage, validated, files, now) && VerifiedWell(record, storage.codec.hash)
    requires SameProposal(FirstRecord(validated, None, storage.workspaceHash, now), record)
    requires Reliable(storage, run, 10, 4)
    ensures record.files == validated.files && record.workspaceId == record.plan.workspaceId && now <= record.expiresAt
    ensures record.verifiedDiff == Some(SmallDiff(storage.codec.hash)) && |run.history| <= MAX_RECORD_GENERATIONS
  {
    hide WellTaken, AllMatch, DirectoryNameOk, SmallDiff, BuildPassed;
  }

  /**
   The whole life of a proposal, for every plan that can be proposed: created, verified, applied and
   rolled back, and then every file of the workspace is as it was.
   */
  method WholeLife(storage: Storage, validated: ValidatedEditPlan, files: Files, now: nat)
      returns (verified: ProposalRecord, applied: ProposalRecord, undone: ProposalRecord, left: Files)
    requires Proposable(storage, validated, files, now) && |validated.files| + 7 <= MAX_POLICY_REFERENCES
    ensures verified.state == Verified && applied.state == RollbackAvailable && undone.state == RolledBack
    ensures left == files
  {
    hide *;
    var store;
    store, verified := UntilVerified(storage, validated, files, now);
    var ws := new Workspace(Disk(files, map[]));
    store.HasHistory();
    store.HasNow();
    VerifiedFacts(storage, validated, files, now, verified, store.Now());
    VerifiedWellFacts(verified, storage.codec.hash);
    ProposableFacts(storage, validated, files, now);
    WillApply(storage, store.history, verified, files, now);
    WillRollBack(verified, now, storage.codec.hash);
    TransactionReasons();
    FaithfulIsAllOrNothing();
    TakenFacts(files, verified.files, storage.codec.hash);
    FaithfulCommits(ws.disk, verified, TRANSACTION);
    var a, u := ApplyThenRollback(store, ws, Faithful(), OptionsOf(verified.plan),
                                  Applies(verified, now, storage.codec.hash),
                                  RollsBack(verified, now, storage.codec.hash), TRANSACTION);
    applied, undone, left := a.value, u.value, ws.disk.files;
  }

  lemma VerifiedWellFacts(r: ProposalRecord, hash: string -> string)
    requires VerifiedWell(r, hash)
    ensures r.state == Verified && r.verifiedDiff == Some(SmallDiff(hash))
  {
    hide SmallDiff;
  }

  /**
   And a life in which the executor fails in the end: the record says that the proposal is applied and
   can be rolled back, while the workspace is empty.
   */
  method MisleadingLife(storage: Storage, validated: ValidatedEditPlan, files: Files, now: nat)
      returns (r: ProposalRecord, left: Files)
    requires Proposable(storage, validated, files, now) && |validated.files| + 7 <= MAX_POLICY_REFERENCES
    requires validated.files != []
    ensures r.state == RollbackAvailable && r.files == validated.files && !Matches(left, r.files, true)
  {
    hide *;
    var store, verified := UntilVerified(storage, validated, files, now);
    var ws := new Workspace(Disk(files, map[]));
    store.HasHistory();
    store.HasNow();
    ghost var before, disk, hash := store.Now(), ws.disk, storage.codec.hash;
    VerifiedFacts(storage, validated, files, now, verified, store.Now());
    ProposableFacts(storage, validated, files, now);
    WillApply(storage, store.history, verified, files, now);
    WillRollBack(verified, now, storage.codec.hash);
    TransactionReasons();
    var world, after := Applies(verified, now, storage.codec.hash), RollsBack(verified, now, storage.codec.hash);
    var options := OptionsOf(verified.plan);
    var a := ApplyVerifiedProposal(store, ws, Faithful(), options, world, TRANSACTION);
    store.HasHistory();
    store.HasNow();
    ghost var second := store.Last();
    ApplySucceeds(storage, before, disk, store.Now(), ws.disk, a, Faithful(), options, world, TRANSACTION, verified, 4,
                  2);
    ReliableHistory(storage, store.Now(), 4, 2);
    OptionsFit(verified);
    WelcomedStays(verified, second, after);
    AppliedIsReady(storage, verified, store.history, second, ws.disk, options, after, TRANSACTION);
    SamePlanAndFiles(verified, second);
    var b := FailedRollbackMisleads(store, ws, options, after);
    SamePlanAndFiles(second, b.value);
    r, left := b.value, ws.disk.files;
  }

  lemma OptionsFit(record: ProposalRecord)
    ensures OptionsOf(record.plan).workspaceId == record.plan.workspaceId
  {
  }

  lemma WelcomedStays(before: ProposalRecord, after: ProposalRecord, world: RollbackWorld)
    requires SameProposal(before, after) && before.verifiedDiff == after.verifiedDiff && Welcomed(before, world)
    ensures Welcomed(after, world) && world.consumed.Granted?
  {
  }

  // ---- There is something to propose ----

  /** Creating one file in an empty workspace. */
  function Sample(hash: string -> string): ValidatedEditPlan {
    var limits := EditPlanLimits(1, 1, 1, 1, 1, 1, 1, 1, 1);
    ValidatedEditPlan(
      EditPlan(1, "p", "r", "w", "h", "f", "v", "m", "b", "d", [], [], limits, 0),
      [FileSnapshot("A", Created, None, None, "x", hash("x"))])
  }

  lemma SampleIsProposable(codec: Codec)
    ensures Proposable(Storage(codec, _ => 0, "p", "h"), Sample(codec.hash), map[], 0)
    ensures Sample(codec.hash).files != []
  {
  }
}
