/**
 The proposal state machine: the sixteen states, the transition table, and what the table alone
 guarantees about every history that starts at `Generated`.
 */
module ProposalSchema {

  datatype ProposalState =
    | Generated
    | Validated
    | WorktreePrepared
    | WorktreeApplied
    | BuildRunning
    | Verified
    | VerificationFailed
    | ApprovalPending
    | Applying
    | Applied
    | RollbackAvailable
    | RollingBack
    | RolledBack
    | Discarded
    | Expired
    | Failed

  /** The transition table; staying in the same state is always legal. */
  predicate CanTransitionTo(from: ProposalState, next: ProposalState) {
    || from == next
    || match from
       case Generated => next.Validated?
       case Validated =>
         next in {WorktreePrepared, VerificationFailed, Failed, Expired, Discarded}
       case WorktreePrepared => next in {WorktreeApplied, VerificationFailed, Failed}
       case WorktreeApplied => next in {BuildRunning, VerificationFailed, Failed}
       case BuildRunning => next in {Verified, VerificationFailed, Failed}
       case Verified =>
         next in {WorktreePrepared, VerificationFailed, ApprovalPending, Applying, Expired, Discarded}
       case VerificationFailed => next in {WorktreePrepared, Expired, Discarded}
       case ApprovalPending => next in {Applying, Verified, Expired, Discarded}
       case Applying => next in {Applied, Verified, Failed}
       case Applied => next in {RollbackAvailable, RollingBack, Failed}
       case RollbackAvailable => next in {RollingBack, Expired}
       case RollingBack => next in {RolledBack, RollbackAvailable, Failed}
       case RolledBack | Discarded | Expired | Failed => false
  }

  /** The same table read the other way: from where each state can be reached. */
  lemma WaysIn(from: ProposalState, next: ProposalState)
    ensures CanTransitionTo(from, next) <==>
      || from == next
      || match next
         case Generated => false
         case Validated => from == Generated
         case WorktreePrepared => from in {Validated, Verified, VerificationFailed}
         case WorktreeApplied => from == WorktreePrepared
         case BuildRunning => from == WorktreeApplied
         case Verified => from in {BuildRunning, ApprovalPending, Applying}
         case VerificationFailed => from in {Validated, WorktreePrepared, WorktreeApplied, BuildRunning, Verified}
         case ApprovalPending => from == Verified
         case Applying => from in {Verified, ApprovalPending}
         case Applied => from == Applying
         case RollbackAvailable => from in {Applied, RollingBack}
         case RollingBack => from in {Applied, RollbackAvailable}
         case RolledBack => from == RollingBack
         case Discarded => from in {Validated, Verified, VerificationFailed, ApprovalPending}
         case Expired => from in {Validated, Verified, VerificationFailed, ApprovalPending, RollbackAvailable}
         case Failed =>
           from in {Validated, WorktreePrepared, WorktreeApplied, BuildRunning, Applying, Applied, RollingBack}
  {
  }

  predicate IsTerminal(s: ProposalState) {
    s.RolledBack? || s.Discarded? || s.Expired? || s.Failed?
  }

  /** A history as the store records it: it starts at `Generated` and every step is in the table. */
  ghost predicate LegalHistory(h: seq<ProposalState>) {
    && |h| > 0
    && h[0] == Generated
    && LegalSteps(h)
  }

  ghost predicate LegalSteps(h: seq<ProposalState>) {
    forall i {:trigger h[i]} :: 0 < i < |h| ==> CanTransitionTo(h[i - 1], h[i])
  }

  /** Terminal is the same as absorbing: a terminal state has no way out, any other state has one. */
  lemma TerminalIffAbsorbing(s: ProposalState)
    ensures IsTerminal(s) <==> forall next :: CanTransitionTo(s, next) ==> next == s
  {
    if !IsTerminal(s) {
      var out := match s
        case Generated => Validated
        case RollbackAvailable => RollingBack
        case RollingBack => RolledBack
        case Applying => Applied
        case Verified | VerificationFailed | ApprovalPending => Discarded
        case _ => Failed;
      assert CanTransitionTo(s, out) && out != s;
    }
  }

  /** If a set of states has no edge leaving it, a history that entered it stays in it. */
  lemma {:induction false} StaysInside(h: seq<ProposalState>, inside: set<ProposalState>, i: nat, j: nat)
    requires LegalSteps(h) && i <= j < |h| && h[i] in inside
    requires forall s, t :: s in inside && CanTransitionTo(s, t) ==> t in inside
    ensures h[j] in inside
  {
    if i < j {
      StaysInside(h, inside, i, j - 1);
    }
  }

  /** A terminal state, once recorded, is every later state of the history. */
  lemma TerminalAbsorbs(h: seq<ProposalState>, i: nat, j: nat)
    requires LegalSteps(h) && i <= j < |h| && IsTerminal(h[i])
    ensures h[j] == h[i]
  {
    TerminalIffAbsorbing(h[i]);
    StaysInside(h, {h[i]}, i, j);
  }

  /** `Applied` is recorded in one uninterrupted block: after leaving it a history never returns. */
  lemma AppliedIsContiguous(h: seq<ProposalState>, i: nat, k: nat, j: nat)
    requires LegalSteps(h) && i <= k <= j < |h| && h[i] == Applied && h[j] == Applied
    ensures h[k] == Applied
  {
    var downstream := {Applied, RollbackAvailable, RollingBack, RolledBack, Expired, Failed};
    StaysInside(h, downstream, i, k);
    if h[k] != Applied {
      StaysInside(h, downstream - {Applied}, k, j);
    }
  }

  /**
   The step at which a history enters a set of states: the predecessor is outside, everything
   before is outside.
   */
  lemma {:induction false} FirstEntry(h: seq<ProposalState>, inside: set<ProposalState>, k: nat) returns (e: nat)
    requires LegalHistory(h) && k < |h| && h[k] in inside && Generated !in inside
    ensures 0 < e <= k && h[e] in inside && h[e - 1] !in inside && CanTransitionTo(h[e - 1], h[e])
    ensures forall i :: 0 <= i < e ==> h[i] !in inside
  {
    if forall i :: 0 <= i < k ==> h[i] !in inside {
      e := k;
      assert h[e - 1] !in inside;
    } else {
      var i :| 0 <= i < k && h[i] in inside;
      e := FirstEntry(h, inside, i);
    }
  }

  /** The states that can only be entered through `Verified`, with `Verified` itself. */
  const FROM_VERIFIED := {Verified, ApprovalPending, Applying, Applied, RollbackAvailable, RollingBack, RolledBack}

  /** The only edge into each successively larger set. */
  lemma VerificationEdges(s: ProposalState, t: ProposalState)
    requires CanTransitionTo(s, t)
    ensures t in FROM_VERIFIED && s !in FROM_VERIFIED ==> s == BuildRunning && t == Verified
    ensures t == BuildRunning && s != BuildRunning ==> s == WorktreeApplied
    ensures t == WorktreeApplied && s != WorktreeApplied ==> s == WorktreePrepared
  {
    assert s !in FROM_VERIFIED ==> s in {Generated, Validated, WorktreePrepared, WorktreeApplied, BuildRunning,
      VerificationFailed, Discarded, Expired, Failed};
  }

  /**
   Where an `Applied` comes from: a first `Verified` at `v`, and before it the worktree was
   prepared at `p`, edited at `a`, and built at `b`, in that order.
   */
  lemma AppliedFollowsVerification(h: seq<ProposalState>, k: nat)
      returns (p: nat, a: nat, b: nat, v: nat)
    requires LegalHistory(h) && k < |h| && h[k] == Applied
    ensures p < a < b < v < k
    ensures h[p] == WorktreePrepared && h[a] == WorktreeApplied && h[b] == BuildRunning && h[v] == Verified
    ensures forall i :: 0 <= i < v ==> h[i] != Verified
  {
    v := FirstEntry(h, FROM_VERIFIED, k);
    VerificationEdges(h[v - 1], h[v]);
    b := FirstEntry(h, {BuildRunning}, v - 1);
    VerificationEdges(h[b - 1], h[b]);
    a := FirstEntry(h, {WorktreeApplied}, b - 1);
    VerificationEdges(h[a - 1], h[a]);
    p := a - 1;
  }

  /** Nothing is rolled back that was not applied before. */
  lemma RolledBackFollowsApplied(h: seq<ProposalState>, k: nat) returns (a: nat)
    requires LegalHistory(h) && k < |h| && h[k] == RolledBack
    ensures a < k && h[a] == Applied
  {
    a := FirstEntry(h, {RollbackAvailable, RollingBack, RolledBack}, k);
    a := a - 1;
  }
}
