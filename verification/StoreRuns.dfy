/**
 What a list of updates makes of a proposal's generations, given the clock and the failures that lie
 ahead: the procedures that drive a proposal are specified by the updates they ask for.
 */
module StoreRuns {
  import opened ProposalSchema
  import opened Text
  import opened Utf8
  import opened Wrappers
  import opened Records
  import opened RecordFiles

  /** The clock during an update, and whether locking, writing and renaming work. */
  datatype Tick = Tick(now: nat, locks: bool, writes: bool, renames: bool)

  predicate Works(t: Tick) {
    t.locks && t.writes && t.renames
  }

  /** The generations published so far, and one entry for every update to come. */
  datatype Run = Run(history: seq<ProposalRecord>, schedule: seq<Tick>)

  /** Behind the end of a schedule nothing works. */
  function FirstTick(schedule: seq<Tick>): Tick {
    if schedule == [] then Tick(0, false, false, false) else schedule[0]
  }

  function LaterTicks(schedule: seq<Tick>): seq<Tick> {
    if schedule == [] then [] else schedule[1..]
  }

  /** An update goes through exactly when nothing refuses it. */
  ghost predicate Permitted(storage: Storage, history: seq<ProposalRecord>, change: Change, t: Tick)
    requires history != []
  {
    var r := history[|history| - 1];
    && Works(t)
    && |history| <= MAX_RECORD_GENERATIONS
    && MayTake(r, change)
    && r.createdAt <= t.now
    && storage.size(Next(r, change, t.now)) <= MAX_RECORD_BYTES
  }

  /** A transition's reason is looked at before anything else. */
  ghost predicate Sayable(change: Change) {
    change.Transition? ==> ReasonOk(change.reason)
  }

  ghost predicate Allowed(storage: Storage, run: Run, change: Change) {
    run.history != [] && Sayable(change) && Permitted(storage, run.history, change, FirstTick(run.schedule))
  }

  /** One update: it appends a generation, or it uses up its entry of the schedule. */
  ghost function Attempt(storage: Storage, run: Run, change: Change): Run {
    if Allowed(storage, run, change) then
      Run(run.history + [Next(run.history[|run.history| - 1], change, FirstTick(run.schedule).now)],
          LaterTicks(run.schedule))
    else if !Sayable(change) then run
    else run.(schedule := LaterTicks(run.schedule))
  }

  /** Every one of these updates goes through, one after the other. */
  ghost predicate GoThrough(storage: Storage, run: Run, changes: seq<Change>)
    decreases |changes|
  {
    changes == []
    || (Allowed(storage, run, changes[0]) && GoThrough(storage, Attempt(storage, run, changes[0]), changes[1..]))
  }

  /** The updates one after the other, up to the first that fails. */
  ghost function Play(storage: Storage, run: Run, changes: seq<Change>): Run
    decreases |changes|
  {
    if changes == [] then run
    else if !Allowed(storage, run, changes[0]) then Attempt(storage, run, changes[0])
    else Play(storage, Attempt(storage, run, changes[0]), changes[1..])
  }

  lemma PlayNothing(storage: Storage, run: Run)
    ensures GoThrough(storage, run, []) && Play(storage, run, []) == run
  {
  }

  lemma PlayFirst(storage: Storage, run: Run, first: Change, rest: seq<Change>)
    ensures GoThrough(storage, run, [first] + rest)
      <==> Allowed(storage, run, first) && GoThrough(storage, Attempt(storage, run, first), rest)
    ensures Play(storage, run, [first] + rest)
      == if Allowed(storage, run, first) then Play(storage, Attempt(storage, run, first), rest)
         else Attempt(storage, run, first)
  {
    hide Allowed, Attempt;
    assert ([first] + rest)[0] == first && ([first] + rest)[1..] == rest;
  }

  lemma PlayOne(storage: Storage, run: Run, first: Change)
    ensures GoThrough(storage, run, [first]) <==> Allowed(storage, run, first)
    ensures Play(storage, run, [first]) == Attempt(storage, run, first)
  {
    hide *;
    assert [first] + [] == [first];
    PlayFirst(storage, run, first, []);
    PlayNothing(storage, Attempt(storage, run, first));
  }

  lemma PlayTwo(storage: Storage, run: Run, first: Change, second: Change)
    ensures var next := Attempt(storage, run, first);
      && (GoThrough(storage, run, [first, second])
          <==> Allowed(storage, run, first) && Allowed(storage, next, second))
      && Play(storage, run, [first, second])
         == if Allowed(storage, run, first) then Attempt(storage, next, second) else next
  {
    hide *;
    assert [first] + [second] == [first, second];
    PlayFirst(storage, run, first, [second]);
    PlayOne(storage, Attempt(storage, run, first), second);
  }

  lemma {:induction false} PlayConcat(storage: Storage, run: Run, a: seq<Change>, b: seq<Change>)
    ensures GoThrough(storage, run, a + b)
      <==> GoThrough(storage, run, a) && GoThrough(storage, Play(storage, run, a), b)
    ensures Play(storage, run, a + b)
      == if GoThrough(storage, run, a) then Play(storage, Play(storage, run, a), b) else Play(storage, run, a)
    decreases |a|
  {
    hide *;
    if a == [] {
      assert a + b == b;
      PlayNothing(storage, run);
    } else {
      var rest := a[1..];
      assert a == [a[0]] + rest && a + b == [a[0]] + (rest + b);
      PlayFirst(storage, run, a[0], rest);
      PlayFirst(storage, run, a[0], rest + b);
      PlayConcat(storage, Attempt(storage, run, a[0]), rest, b);
    }
  }

  /** Updates that go through make as many generations. */
  lemma {:induction false} PlayGrows(storage: Storage, run: Run, changes: seq<Change>)
    ensures run.history <= Play(storage, run, changes).history
    ensures GoThrough(storage, run, changes) ==>
      |Play(storage, run, changes).history| == |run.history| + |changes|
    decreases |changes|
  {
    hide Allowed;
    if changes != [] {
      PlayGrows(storage, Attempt(storage, run, changes[0]), changes[1..]);
    }
  }

  // ---- Schedules on which nothing fails ----

  /**
   The next `n` updates meet no failing lock or write, no clock before the creation, no generation
   limit and no size limit, and `room` more policy references fit.
   */
  ghost predicate Reliable(storage: Storage, run: Run, n: nat, room: nat) {
    && 0 < |run.history| && |run.history| + n <= MAX_RECORD_GENERATIONS
    && |run.history[|run.history| - 1].policy| + room <= MAX_POLICY_REFERENCES
    && n <= |run.schedule|
    && (forall i :: 0 <= i < n ==>
          Works(run.schedule[i]) && run.history[|run.history| - 1].createdAt <= run.schedule[i].now)
    && forall r :: storage.size(r) <= MAX_RECORD_BYTES
  }

  lemma ReliableLess(storage: Storage, run: Run, n: nat, room: nat, m: nat, less: nat)
    requires Reliable(storage, run, n, room) && m <= n && less <= room
    ensures Reliable(storage, run, m, less)
  {
  }

  function RoomFor(change: Change): nat {
    if change.RecordPolicy? then |change.decisions| else 0
  }

  /** What the record itself would refuse, the policy bound aside. */
  ghost predicate Fits(r: ProposalRecord, change: Change) {
    change.RecordPolicy? || MayTake(r, change)
  }

  lemma ReliableStep(storage: Storage, run: Run, n: nat, room: nat, change: Change)
    requires Reliable(storage, run, n, room) && n > 0 && RoomFor(change) <= room
    requires Sayable(change) && Fits(run.history[|run.history| - 1], change)
    ensures Allowed(storage, run, change)
    ensures Reliable(storage, Attempt(storage, run, change), n - 1, room - RoomFor(change))
    ensures var last := run.history[|run.history| - 1];
      Attempt(storage, run, change).history == run.history + [Next(last, change, run.schedule[0].now)]
  {
    hide ReasonOk, CanTransitionTo;
  }

  /** Updates that a record in this state would not refuse, one after the other. */
  ghost predicate Legal(state: ProposalState, id: string, changes: seq<Change>)
    decreases |changes|
  {
    changes == []
    || match changes[0]
       case Transition(next, reason) =>
         CanTransitionTo(state, next) && ReasonOk(reason) && Legal(next, id, changes[1..])
       case RecordPolicy(_) => Legal(state, id, changes[1..])
       case RecordVerification(report, _) => report.proposalId == id && Legal(state, id, changes[1..])
       case RecordApply(report) => report.proposalId == id && Legal(state, id, changes[1..])
       case RecordRollback(report) => report.proposalId == id && Legal(state, id, changes[1..])
  }

  function Rooms(changes: seq<Change>): nat
    decreases |changes|
  {
    if changes == [] then 0 else RoomFor(changes[0]) + Rooms(changes[1..])
  }

  lemma LegalFirst(state: ProposalState, id: string, first: Change, rest: seq<Change>)
    ensures var next := if first.Transition? then first.next else state;
      Legal(state, id, [first] + rest)
      <==> && (first.Transition? ==> CanTransitionTo(state, next) && ReasonOk(first.reason))
           && (first.RecordVerification? ==> first.report.proposalId == id)
           && (first.RecordApply? ==> first.applied.proposalId == id)
           && (first.RecordRollback? ==> first.rolledBack.proposalId == id)
           && Legal(next, id, rest)
    ensures Rooms([first] + rest) == RoomFor(first) + Rooms(rest)
  {
    hide CanTransitionTo, ReasonOk;
    assert ([first] + rest)[1..] == rest;
  }

  lemma LegalNothing(state: ProposalState, id: string)
    ensures Legal(state, id, []) && Rooms([]) == 0
  {
  }

  /** On a schedule on which nothing fails, legal updates all go through. */
  lemma {:induction false} ReliableScript(storage: Storage, run: Run, changes: seq<Change>, n: nat, room: nat)
    requires Reliable(storage, run, |changes| + n, Rooms(changes) + room)
    requires Legal(run.history[|run.history| - 1].state, run.history[|run.history| - 1].proposalId, changes)
    ensures GoThrough(storage, run, changes)
    ensures Reliable(storage, Play(storage, run, changes), n, room)
    decreases |changes|
  {
    if changes != [] {
      hide ReasonOk, CanTransitionTo, Reliable, Allowed, Attempt;
      ReliableHistory(storage, run, |changes| + n, Rooms(changes) + room);
      ReliableStep(storage, run, |changes| + n, Rooms(changes) + room, changes[0]);
      ReliableScript(storage, Attempt(storage, run, changes[0]), changes[1..], n, room);
    }
  }

  lemma ReliableHistory(storage: Storage, run: Run, n: nat, room: nat)
    requires Reliable(storage, run, n, room)
    ensures run.history != [] && |run.history| + n <= MAX_RECORD_GENERATIONS && n <= |run.schedule|
  {
  }

  /** Only a verification report changes the stored verification and its diff. */
  lemma {:induction false} PlayKeepsDiff(storage: Storage, run: Run, changes: seq<Change>)
    requires run.history != [] && forall i :: 0 <= i < |changes| ==> !changes[i].RecordVerification?
    ensures var history := Play(storage, run, changes).history;
      && history != []
      && history[|history| - 1].verifiedDiff == run.history[|run.history| - 1].verifiedDiff
      && history[|history| - 1].verification == run.history[|run.history| - 1].verification
    decreases |changes|
  {
    hide Allowed;
    if changes != [] {
      PlayKeepsDiff(storage, Attempt(storage, run, changes[0]), changes[1..]);
    }
  }

  /** Transitions do not change the policy references. */
  lemma {:induction false} PlayMoves(storage: Storage, run: Run, changes: seq<Change>)
    requires run.history != [] && forall i :: 0 <= i < |changes| ==> changes[i].Transition?
    ensures var last, history := run.history[|run.history| - 1], Play(storage, run, changes).history;
      history != [] && history[|history| - 1].policy == last.policy
    decreases |changes|
  {
    hide Allowed, Attempt, Next;
    if changes != [] {
      AttemptMoves(storage, run, changes[0]);
      PlayMoves(storage, Attempt(storage, run, changes[0]), changes[1..]);
    }
  }

  lemma AttemptMoves(storage: Storage, run: Run, change: Change)
    requires run.history != [] && change.Transition?
    ensures var last, history := run.history[|run.history| - 1], Attempt(storage, run, change).history;
      history != [] && history[|history| - 1].policy == last.policy
  {
    hide Allowed, Sayable;
  }

  lemma AttemptTakesEffect(storage: Storage, run: Run, change: Change)
    requires Allowed(storage, run, change)
    ensures var last, history := run.history[|run.history| - 1], Attempt(storage, run, change).history;
      history != [] && TookEffect(last, history[|history| - 1], change, FirstTick(run.schedule).now)
  {
    hide Permitted, Sayable, Next, TookEffect;
    NextTakesEffect(run.history[|run.history| - 1], change, FirstTick(run.schedule).now);
  }

  /** Transitions, then policy references, then a report: the record keeps exactly these references and that report. */
  lemma PlayFiles(storage: Storage, run: Run, moves: seq<Change>, decisions: seq<PolicyReference>, report: Change)
    requires run.history != [] && forall i :: 0 <= i < |moves| ==> moves[i].Transition?
    requires GoThrough(storage, run, moves + [RecordPolicy(decisions), report])
    requires !report.Transition? && !report.RecordPolicy?
    ensures var last := run.history[|run.history| - 1];
      var history := Play(storage, run, moves + [RecordPolicy(decisions), report]).history;
      && history != []
      && var r := history[|history| - 1];
      && r.policy == last.policy + decisions
      && (report.RecordApply? ==> r.apply == Some(report.applied))
      && (report.RecordRollback? ==> r.rollback == Some(report.rolledBack))
      && (report.RecordVerification? ==> r.verification == Some(report.report) && r.verifiedDiff == report.diff)
  {
    hide Play, GoThrough, Allowed, Attempt;
    PlayConcat(storage, run, moves, [RecordPolicy(decisions), report]);
    PlayMoves(storage, run, moves);
    var moved := Play(storage, run, moves);
    PlayTwo(storage, moved, RecordPolicy(decisions), report);
    AttemptTakesEffect(storage, moved, RecordPolicy(decisions));
    AttemptTakesEffect(storage, Attempt(storage, moved, RecordPolicy(decisions)), report);
  }

  /** The state that updates lead to. */
  function StateAfter(state: ProposalState, changes: seq<Change>): ProposalState
    decreases |changes|
  {
    if changes == [] then state
    else StateAfter(if changes[0].Transition? then changes[0].next else state, changes[1..])
  }

  lemma StateFirst(state: ProposalState, first: Change, rest: seq<Change>)
    ensures StateAfter(state, [first] + rest) == StateAfter(if first.Transition? then first.next else state, rest)
  {
    assert ([first] + rest)[1..] == rest;
  }

  lemma StateNothing(state: ProposalState)
    ensures StateAfter(state, []) == state
  {
  }

  lemma {:induction false} PlaySettles(storage: Storage, run: Run, changes: seq<Change>)
    requires run.history != [] && GoThrough(storage, run, changes)
    ensures var last, history := run.history[|run.history| - 1], Play(storage, run, changes).history;
      && history != []
      && history[|history| - 1].state == StateAfter(last.state, changes)
      && history[|history| - 1].proposalId == last.proposalId
    decreases |changes|
  {
    hide Allowed;
    if changes != [] {
      PlaySettles(storage, Attempt(storage, run, changes[0]), changes[1..]);
    }
  }

  lemma ReasonBytes(reason: string)
    ensures ByteLen(reason) <= 4 * |reason|
  {
  }

  /** A reason that starts and ends in a visible character, and is not long. */
  lemma ShortReason(reason: string)
    requires 0 < |reason| <= MAX_REASON_BYTES / 4
    requires !IsWhitespace(reason[0]) && !IsWhitespace(reason[|reason| - 1])
    ensures ReasonOk(reason)
  {
    ReasonBytes(reason);
  }
}
