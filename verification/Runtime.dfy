/** Any sequence of runtime calls on one proposal, one at a time, with every store write free to fail. */
module Runtime {
  import opened Wrappers
  import opened EditSchema
  import opened ProposalSchema
  import opened Records
  import opened RecordFiles
  import opened StoreRuns
  import opened Store
  import opened Transactions
  import opened Lifecycle
  import opened Apply
  import opened Rollback
  import opened Verification
  import opened IntentBinding

  /** The texts that the records keep of what happened. */
  const DISCARD_REASON := "proposal discarded by explicit client command"

  /**
   A call with everything the outside world contributes to it. A crash is a call whose store writes fail
   from some point on.
   */
  datatype Call =
    | VerifyCall(options: Options, verify: VerifyWorld, executor: Executor, transactionId: string)
    | ApplyCall(options: Options, apply: ApplyWorld, executor: Executor, transactionId: string)
    | RollbackCall(options: Options, rollback: RollbackWorld, executor: Executor)
    | DiscardCall
    | ExpireCall(now: nat)
    | PolicyCall(decisions: seq<PolicyReference>)

  /** `discard`. */
  method DiscardProposal(store: ProposalStore) returns (r: Result<ProposalRecord, StoreError>)
    requires store.Valid() && AllOk(store.history)
    modifies store
    ensures store.Valid() && AllOk(store.history) && old(store.history) <= store.history
    ensures SameProposal(old(store.Last()), store.Last())
    ensures r.Ok? <==> old(Allowed(store.storage, store.Now(), Transition(Discarded, DISCARD_REASON)))
    ensures store.Now() == old(Attempt(store.storage, store.Now(), Transition(Discarded, DISCARD_REASON)))
    ensures r.Ok? ==> r.value == store.Last() && r.value.state == Discarded
    ensures store.history != old(store.history) ==> CanTransitionTo(old(store.Last()).state, Discarded)
  {
    hide *;
    store.HasHistory();
    SameAsItself(store.Last());
    r := Move(store, Discarded, DISCARD_REASON);
  }

  method Perform(store: ProposalStore, ws: Workspace, call: Call)
    requires store.Valid() && AllOk(store.history)
    modifies store, ws
    ensures store.Valid() && AllOk(store.history) && old(store.history) <= store.history
    ensures SameProposal(old(store.Last()), store.Last())
    ensures old(store.Last()).state == RollingBack ==> store.Last().state == RollingBack
    ensures !call.ApplyCall? && !call.RollbackCall? ==> ws.disk == old(ws.disk)
  {
    hide *;
    store.HasHistory();
    SameAsItself(store.Last());
    NoWayOut(store.Last());
    VerifySets();
    match call {
      case VerifyCall(options, world, executor, id) =>
        var _ := VerifyEditProposal(store, executor, options, world, id);
      case ApplyCall(options, world, executor, id) =>
        var _ := ApplyVerifiedProposal(store, ws, executor, options, world, id);
      case RollbackCall(options, world, executor) =>
        var _ := RollbackEditProposal(store, ws, executor, options, world);
      case DiscardCall =>
        var _ := DiscardProposal(store);
      case ExpireCall(now) =>
        var _ := ExpireFirst(store, now);
      case PolicyCall(decisions) =>
        var _ := Note(store, decisions);
    }
    store.HasHistory();
  }

  lemma NoWayOut(r: ProposalRecord)
    ensures r.state == RollingBack ==> !CanTransitionTo(r.state, Discarded) && forall now :: !IsExpired(r, now)
  {
  }

  /** Every record such a sequence can reach, a crash between any two writes included. */
  method RunCalls(store: ProposalStore, ws: Workspace, calls: seq<Call>)
    requires store.Valid() && AllOk(store.history)
    modifies store, ws
    ensures store.Valid() && AllOk(store.history) && old(store.history) <= store.history
    ensures SameProposal(old(store.Last()), store.Last())
    ensures old(store.Last()).state == RollingBack ==> store.Last().state == RollingBack
  {
    hide *;
    store.HasHistory();
    SameAsItself(store.Last());
    ghost var first := store.Last();
    for i := 0 to |calls|
      invariant store.Valid() && AllOk(store.history) && old(store.history) <= store.history
      invariant store.history != [] && SameProposal(first, store.Last())
      invariant first.state == RollingBack ==> store.Last().state == RollingBack
    {
      store.HasHistory();
      ghost var last := store.Last();
      Perform(store, ws, calls[i]);
      store.HasHistory();
      SameThrough(first, last, store.Last());
    }
  }

  /** A fresh proposal starts such a sequence. */
  lemma FirstRecordOk(validated: ValidatedEditPlan, intent: Option<Binding>, workspaceHash: string, now: nat)
    ensures AllOk([FirstRecord(validated, intent, workspaceHash, now)])
  {
  }
}
