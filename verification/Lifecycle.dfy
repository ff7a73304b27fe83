/**
 What every record of a proposal keeps, and the store updates as the runtime's procedures use them.
 */
module Lifecycle {
  import opened Wrappers
  import opened EditSchema
  import opened ProposalSchema
  import opened Records
  import opened RecordFiles
  import opened StoreRuns
  import opened Store

  /** The states in which a successful apply report may stand. */
  const AFTER_APPLY := {RollbackAvailable, RollingBack, RolledBack, ProposalState.Failed}

  /** The stored diff belongs to a successful verification, a successful apply report to what follows an apply. */
  ghost predicate RecordOk(r: ProposalRecord) {
    && (r.verifiedDiff.Some? <==> r.verification.Some? && r.verification.value.success)
    && (r.apply.Some? && r.apply.value.success ==> r.state in AFTER_APPLY)
  }

  ghost predicate AllOk(history: seq<ProposalRecord>) {
    forall i :: 0 <= i < |history| ==> RecordOk(history[i])
  }

  /** The procedures never change these; transitions and policy notes change none of them. */
  ghost predicate SameReports(a: ProposalRecord, b: ProposalRecord) {
    a.verification == b.verification && a.verifiedDiff == b.verifiedDiff && a.apply == b.apply
    && a.rollback == b.rollback
  }

  lemma AllOkSnoc(history: seq<ProposalRecord>, r: ProposalRecord)
    requires AllOk(history) && RecordOk(r)
    ensures AllOk(history + [r])
  {
  }

  lemma TransitionKeepsOk(r: ProposalRecord, next: ProposalState, reason: string, now: nat)
    requires RecordOk(r) && CanTransitionTo(r.state, next) && !(r.state == RollbackAvailable && next == Expired)
    ensures var after := Next(r, Records.Transition(next, reason), now);
      && RecordOk(after) && SameReports(r, after) && SameProposal(r, after) && after.state == next
      && |after.transitions| == |r.transitions| + 1 && after.policy == r.policy
  {
  }

  method Move(store: ProposalStore, next: ProposalState, reason: string) returns (r: Result<ProposalRecord, StoreError>)
    requires store.Valid() && AllOk(store.history) && !(store.Last().state == RollbackAvailable && next == Expired)
    modifies store
    ensures store.Valid() && AllOk(store.history) && old(store.history) <= store.history
    ensures store.history != [] && store.Last() == (if r.Ok? then r.value else old(store.Last()))
    ensures r.Err? ==> store.history == old(store.history)
    ensures r.Ok? ==> store.history == old(store.history) + [r.value] && r.value.state == next
    ensures r.Ok? ==> SameReports(old(store.Last()), r.value) && SameProposal(old(store.Last()), r.value)
    ensures r.Ok? ==> |r.value.transitions| == |old(store.Last()).transitions| + 1
    ensures r.Ok? ==> r.value.policy == old(store.Last()).policy
    ensures r.Ok? ==> CanTransitionTo(old(store.Last()).state, next)
    ensures CanTransitionTo(old(store.Last()).state, next) ==> store.illegal == old(store.illegal)
    ensures r.Ok? <==> old(Allowed(store.storage, store.Now(), Records.Transition(next, reason)))
    ensures store.Now() == old(Attempt(store.storage, store.Now(), Records.Transition(next, reason)))
  {
    hide CanTransitionTo, Allowed, Attempt, ReasonOk, Good, Succeeds, RecordOk;
    ghost var last, now := store.Last(), store.NextTick().now;
    r := store.Transition(next, reason);
    if r.Ok? {
      LastOk(store.history[..|store.history| - 1]);
      TransitionKeepsOk(last, next, reason, now);
      AllOkSnoc(old(store.history), r.value);
    }
  }

  lemma LastOk(history: seq<ProposalRecord>)
    requires AllOk(history)
    ensures history != [] ==> RecordOk(history[|history| - 1])
  {
    hide RecordOk;
  }

  /** `record_policy`. */
  method Note(store: ProposalStore, decisions: seq<PolicyReference>) returns (r: Result<ProposalRecord, StoreError>)
    requires store.Valid() && AllOk(store.history)
    modifies store
    ensures store.Valid() && AllOk(store.history) && old(store.history) <= store.history
    ensures store.history != [] && store.Last() == (if r.Ok? then r.value else old(store.Last()))
    ensures store.illegal == old(store.illegal)
    ensures r.Err? ==> store.history == old(store.history)
    ensures r.Ok? ==> store.history == old(store.history) + [r.value] && r.value.state == old(store.Last()).state
    ensures r.Ok? ==> SameReports(old(store.Last()), r.value) && SameProposal(old(store.Last()), r.value)
    ensures r.Ok? ==> r.value.transitions == old(store.Last()).transitions
    ensures r.Ok? ==> r.value.policy == old(store.Last()).policy + decisions
    ensures r.Ok? <==> old(Allowed(store.storage, store.Now(), RecordPolicy(decisions)))
    ensures store.Now() == old(Attempt(store.storage, store.Now(), RecordPolicy(decisions)))
  {
    hide Permitted, Attempt, Good, Succeeds, AllOk;
    r := store.Update(RecordPolicy(decisions));
    if r.Ok? {
      LastOk(old(store.history));
      AllOkSnoc(old(store.history), r.value);
    }
  }

  method FileVerification(store: ProposalStore, report: VerificationReport, diff: Option<VerifiedDiff>)
      returns (r: Result<ProposalRecord, StoreError>)
    requires store.Valid() && AllOk(store.history) && (diff.Some? <==> report.success)
    modifies store
    ensures store.Valid() && AllOk(store.history) && old(store.history) <= store.history
    ensures store.history != [] && store.Last() == (if r.Ok? then r.value else old(store.Last()))
    ensures store.illegal == old(store.illegal)
    ensures r.Err? ==> store.history == old(store.history)
    ensures r.Ok? ==> store.history == old(store.history) + [r.value] && r.value.state == old(store.Last()).state
    ensures r.Ok? ==> r.value.verification == Some(report) && r.value.verifiedDiff == diff
    ensures r.Ok? ==> SameProposal(old(store.Last()), r.value) && r.value.transitions == old(store.Last()).transitions
    ensures r.Ok? ==> r.value.policy == old(store.Last()).policy
    ensures r.Ok? <==> old(Allowed(store.storage, store.Now(), RecordVerification(report, diff)))
    ensures store.Now() == old(Attempt(store.storage, store.Now(), RecordVerification(report, diff)))
  {
    hide Permitted, Attempt, Good, Succeeds, AllOk;
    r := store.Update(RecordVerification(report, diff));
    if r.Ok? {
      LastOk(old(store.history));
      AllOkSnoc(old(store.history), r.value);
    }
  }

  method FileApply(store: ProposalStore, report: ApplyReport) returns (r: Result<ProposalRecord, StoreError>)
    requires store.Valid() && AllOk(store.history) && (report.success ==> store.Last().state in AFTER_APPLY)
    modifies store
    ensures store.Valid() && AllOk(store.history) && old(store.history) <= store.history
    ensures store.history != [] && store.Last() == (if r.Ok? then r.value else old(store.Last()))
    ensures store.illegal == old(store.illegal)
    ensures r.Err? ==> store.history == old(store.history)
    ensures r.Ok? ==> store.history == old(store.history) + [r.value] && r.value.state == old(store.Last()).state
    ensures r.Ok? ==> r.value.apply == Some(report) && SameProposal(old(store.Last()), r.value)
    ensures r.Ok? <==> old(Allowed(store.storage, store.Now(), RecordApply(report)))
    ensures store.Now() == old(Attempt(store.storage, store.Now(), RecordApply(report)))
  {
    hide Permitted, Attempt, Good, Succeeds, AllOk;
    r := store.Update(RecordApply(report));
    if r.Ok? {
      LastOk(old(store.history));
      AllOkSnoc(old(store.history), r.value);
    }
  }

  method FileRollback(store: ProposalStore, report: RollbackReport) returns (r: Result<ProposalRecord, StoreError>)
    requires store.Valid() && AllOk(store.history)
    modifies store
    ensures store.Valid() && AllOk(store.history) && old(store.history) <= store.history
    ensures store.history != [] && store.Last() == (if r.Ok? then r.value else old(store.Last()))
    ensures store.illegal == old(store.illegal)
    ensures r.Err? ==> store.history == old(store.history)
    ensures r.Ok? ==> store.history == old(store.history) + [r.value] && r.value.state == old(store.Last()).state
    ensures r.Ok? ==> r.value.rollback == Some(report) && SameProposal(old(store.Last()), r.value)
    ensures r.Ok? <==> old(Allowed(store.storage, store.Now(), RecordRollback(report)))
    ensures store.Now() == old(Attempt(store.storage, store.Now(), RecordRollback(report)))
  {
    hide Permitted, Attempt, Good, Succeeds, AllOk;
    r := store.Update(RecordRollback(report));
    if r.Ok? {
      LastOk(old(store.history));
      AllOkSnoc(old(store.history), r.value);
    }
  }

  /** Expiry before a procedure starts. */
  method ExpireFirst(store: ProposalStore, now: nat) returns (r: Result<ProposalRecord, StoreError>)
    requires store.Valid() && AllOk(store.history)
    modifies store
    ensures store.Valid() && AllOk(store.history) && old(store.history) <= store.history
    ensures store.history != [] && store.Last() == (if r.Ok? then r.value else old(store.Last()))
    ensures store.Now() == old(Play(store.storage, store.Now(), ExpiryChanges(store.history, now)))
    ensures r.Ok? <==>
      && |old(store.history)| <= MAX_RECORD_GENERATIONS
      && old(GoThrough(store.storage, store.Now(), ExpiryChanges(store.history, now)))
    ensures r.Err? ==> store.history == old(store.history)
    ensures r.Ok? ==> SameProposal(old(store.Last()), r.value)
    ensures store.history != old(store.history) ==>
      && r.Ok? && store.history == old(store.history) + [r.value] && r.value.state == Expired
      && IsExpired(old(store.Last()), now)
    ensures store.illegal != old(store.illegal) ==>
      IsExpired(old(store.Last()), now) && old(store.Last()).state in
        {Generated, WorktreePrepared, WorktreeApplied, BuildRunning, Applying, Discarded, ProposalState.Failed}
  {
    hide Play, GoThrough, ExpiryChanges, Good, AllOk;
    r := store.ExpireIfNeeded(now);
    if store.history != old(store.history) {
      LastOk(old(store.history));
      assert RecordOk(r.value);
      AllOkSnoc(old(store.history), r.value);
    }
  }
}
