/**
 The record store of one proposal as a caller sees it: generations are published one by one and never
 changed. Time and failing file operations come from a schedule with one entry for every update.
 */
module Store {
  import opened Wrappers
  import opened Text
  import opened Utf8
  import opened EditSchema
  import opened ProposalSchema
  import opened Intent
  import opened IntentBinding
  import opened PlanAuthority
  import opened Records
  import opened RecordFiles
  import opened StoreRuns

  /** `validate_identifier`: what may name a proposal's directory. */
  ghost predicate DirectoryNameOk(s: string) {
    0 < |s| <= 160
    && forall c :: c in s ==> 'a' <= c <= 'z' || 'A' <= c <= 'Z' || '0' <= c <= '9' || c in {'-', '_', '.'}
  }

  // ---- What stays true of the directory ----

  /** Temporary files left behind carry past counters. */
  ghost predicate NoTempsFrom(files: Directory, process: nat, counter: nat) {
    forall sequence: nat, k: nat :: k >= counter ==> TempName(sequence, process, k) !in files
  }

  ghost predicate Good(storage: Storage, files: Directory, history: seq<ProposalRecord>, process: nat, counter: nat) {
    GoodHistory(storage, history) && HoldsExactly(files, history) && NoTempsFrom(files, process, counter)
  }

  lemma LaterTemps(before: Directory, after: Directory, process: nat, counter: nat, sequence: nat)
    requires NoTempsFrom(before, process, counter) && sequence <= U32_MAX
    requires after.Keys <= before.Keys + {TempName(sequence, process, counter), RecordName(sequence)}
    ensures NoTempsFrom(after, process, counter + 1)
  {
    hide TempName, RecordName;
    forall m: nat, k: nat | k >= counter + 1 ensures TempName(m, process, k) !in after {
      TempNamesDiffer(m, k, sequence, counter, process);
      TempIsNoGeneration(m, process, k, sequence);
    }
  }

  /** While a generation is written, readers see the history as it was. */
  lemma WhileWriting(storage: Storage, files: Directory, history: seq<ProposalRecord>, process: nat, counter: nat,
                     sequence: nat, content: Content)
    requires Good(storage, files, history, process, counter) && sequence <= U32_MAX
    ensures var temp := TempName(sequence, process, counter);
      && temp !in files
      && Good(storage, files[temp := content], history, process, counter + 1)
      && Good(storage, files[temp := content] - {temp}, history, process, counter + 1)
  {
    hide TempName, RecordName, GoodHistory, HoldsExactly;
    var temp := TempName(sequence, process, counter);
    TempIsNoRecord(sequence, process, counter);
    LastOfGood(storage, history);
    HoldsWithOther(files, history, temp, content);
    HoldsWithOther(files[temp := content], history, temp, content);
    LaterTemps(files, files[temp := content], process, counter, sequence);
    LaterTemps(files, files[temp := content] - {temp}, process, counter, sequence);
  }

  /** After the rename they see one generation more. */
  lemma AfterRename(storage: Storage, files: Directory, history: seq<ProposalRecord>, process: nat, counter: nat,
                    record: ProposalRecord)
    requires Good(storage, files, history, process, counter)
    requires record.sequence == |history| <= U32_MAX && storage.size(record) <= MAX_RECORD_BYTES
    requires ValidRecord(record, storage.id, storage.workspaceHash, storage.codec)
    requires history != [] && Succeeds(record, history[|history| - 1])
    ensures var temp, path := TempName(record.sequence, process, counter), RecordName(record.sequence);
      && path !in files
      && Good(storage, (files[temp := Whole(record)] - {temp})[path := Whole(record)], history + [record], process,
              counter + 1)
  {
    hide TempName, RecordName, GoodHistory, HoldsExactly, ValidRecord, Succeeds;
    var temp, path := TempName(record.sequence, process, counter), RecordName(record.sequence);
    WhileWriting(storage, files, history, process, counter, record.sequence, Whole(record));
    HoldsOneMore(files, history, record);
    HoldsOneMore(files[temp := Whole(record)] - {temp}, history, record);
    GoodOneMore(storage, history, record);
    LaterTemps(files, (files[temp := Whole(record)] - {temp})[path := Whole(record)], process, counter,
               record.sequence);
  }

  lemma ReadingGood(storage: Storage, files: Directory, history: seq<ProposalRecord>, process: nat, counter: nat)
    requires Good(storage, files, history, process, counter)
    ensures |Candidates(files)| == |history| && 0 < |history| <= U32_MAX + 1
    ensures !NothingAccepted(storage, files)
    ensures forall r :: IsNewest(storage, files, r) ==> r == history[|history| - 1]
    ensures history[|history| - 1].sequence == |history| - 1
    ensures ValidRecord(history[|history| - 1], storage.id, storage.workspaceHash, storage.codec)
  {
    hide ValidRecord, RecordName, ParseRecordSequence, Succeeds, NoTempsFrom, IsNewest, NothingAccepted, Candidates;
    CandidateCount(files, history);
    NewestIsLast(storage, files, history);
    LastOfGood(storage, history);
  }

  lemma LastIsValid(storage: Storage, files: Directory, history: seq<ProposalRecord>, process: nat, counter: nat)
    requires Good(storage, files, history, process, counter)
    ensures 0 < |history| <= U32_MAX + 1
    ensures var last := history[|history| - 1];
      last.sequence == |history| - 1 && ValidRecord(last, storage.id, storage.workspaceHash, storage.codec)
  {
    hide *;
    ReadingGood(storage, files, history, process, counter);
  }

  lemma FirstSequence(validated: ValidatedEditPlan, intent: Option<Binding>, workspaceHash: string, now: nat)
    ensures FirstRecord(validated, intent, workspaceHash, now).sequence == 0
  {
  }

  /** A directory with a first generation alone is good exactly when that generation is valid. */
  lemma FirstGeneration(storage: Storage, record: ProposalRecord, process: nat, counter: nat)
    requires record.sequence == 0 && storage.size(record) <= MAX_RECORD_BYTES
    ensures Good(storage, map[RecordName(0) := Whole(record)], [record], process, counter)
      <==> ValidRecord(record, storage.id, storage.workspaceHash, storage.codec)
  {
    hide RecordName, TempName, ValidRecord, ParseRecordSequence;
    forall sequence: nat, k: nat ensures TempName(sequence, process, k) != RecordName(0) {
      TempIsNoGeneration(sequence, process, k, 0);
    }
  }

  /** Only a valid first generation can be read back. */
  lemma CreatedIsReadIffValid(storage: Storage, record: ProposalRecord)
    requires record.sequence == 0 && storage.size(record) <= MAX_RECORD_BYTES
    ensures NothingAccepted(storage, map[RecordName(0) := Whole(record)])
      <==> !ValidRecord(record, storage.id, storage.workspaceHash, storage.codec)
  {
    hide RecordName, ValidRecord, ParseRecordSequence;
    ParseOfName(0);
    assert RecordName(0) in map[RecordName(0) := Whole(record)];
  }

  /** The states that the table gives no way to expire. */
  lemma ExpiryTable(s: ProposalState)
    ensures s in {Generated, WorktreePrepared, WorktreeApplied, BuildRunning, Applying, Applied, RollingBack,
                  RolledBack, Discarded, Failed}
      <==> !CanTransitionTo(s, Expired)
  {
  }

  const TTL_REASON := "proposal TTL elapsed"

  lemma TtlReason()
    ensures ReasonOk(TTL_REASON)
  {
    ShortReason(TTL_REASON);
  }

  /** What `expire_if_needed` asks for: nothing of a proposal that cannot be read. */
  function ExpiryChanges(history: seq<ProposalRecord>, now: nat): seq<Change>
    requires history != []
  {
    var last := history[|history| - 1];
    if |history| <= MAX_RECORD_GENERATIONS && IsExpired(last, now) && last.state != Expired
    then [Records.Transition(Expired, TTL_REASON)]
    else []
  }

  /** What creation asks of the outside world, of the identifier and of the record's size. */
  ghost predicate Creatable(storage: Storage, validated: ValidatedEditPlan, intent: Option<Binding>, t: Tick) {
    && Works(t) && DirectoryNameOk(validated.plan.planId)
    && storage.size(FirstRecord(validated, intent, storage.workspaceHash, t.now)) <= MAX_RECORD_BYTES
  }

  /** Change and validate, as `update` does between loading and publishing. */
  method MakeNext(storage: Storage, r: ProposalRecord, change: Change, now: nat)
      returns (next: Result<ProposalRecord, StoreError>)
    requires ValidRecord(r, storage.id, storage.workspaceHash, storage.codec)
    ensures next.Ok? <==> MayTake(r, change) && r.sequence != U32_MAX && r.createdAt <= now
    ensures next.Ok? ==> next.value == Next(r, change, now) && Succeeds(next.value, r)
    ensures next.Ok? ==>
      next.value.sequence == r.sequence + 1 && ValidRecord(next.value, storage.id, storage.workspaceHash, storage.codec)
    ensures next == Err(InvalidTransition) <==> change.Transition? && !CanTransitionTo(r.state, change.next)
  {
    hide ValidRecord, CanTransitionTo;
    var refusal := Refusal(r, change);
    if refusal.Some? {
      return Err(refusal.value);
    }
    if r.sequence == U32_MAX {
      return Err(SequenceExhausted);
    }
    var record := Next(r, change, now);
    var verdict := ValidateRecord(record, storage.id, storage.workspaceHash, storage.codec);
    ChangesKeepValidity(r, change, now, storage.id, storage.workspaceHash, storage.codec);
    if verdict.Err? {
      return Err(InvalidRecord);
    }
    return Ok(record);
  }

  class ProposalStore {
    const storage: Storage
    const process: nat
    /** Whether the proposal's directory exists. */
    var created: bool
    var files: Directory
    var counter: nat
    var schedule: seq<Tick>
    /** The published generations. */
    ghost var history: seq<ProposalRecord>
    /** How many transitions outside the table were asked for. */
    ghost var illegal: nat

    constructor (storage: Storage, process: nat, schedule: seq<Tick>)
      ensures this.storage == storage && this.schedule == schedule && Empty() && illegal == 0
    {
      this.storage, this.process, this.schedule := storage, process, schedule;
      created, files, counter, history, illegal := false, map[], 0, [], 0;
    }

    ghost predicate Empty()
      reads this
    {
      !created && files == map[] && history == []
    }

    ghost predicate Valid()
      reads this
    {
      created && history != [] && Good(storage, files, history, process, counter)
    }

    lemma HasHistory()
      requires Valid()
      ensures history != [] && Last() == history[|history| - 1]
    {
    }

    lemma IsNew()
      requires Empty()
      ensures Now() == Run([], schedule) && NextTick() == FirstTick(schedule) && !created
    {
    }

    lemma HasNow()
      ensures Now() == Run(history, schedule)
    {
    }

    ghost function Now(): Run
      reads this
    {
      Run(history, schedule)
    }

    ghost function Last(): ProposalRecord
      requires history != []
      reads this
    {
      history[|history| - 1]
    }

    /** `create_record`: one generation is published without being validated. */
    method CreateRecord(validated: ValidatedEditPlan, intent: Option<Binding>)
        returns (r: Result<ProposalRecord, StoreError>)
      requires storage.id == validated.plan.planId && (Empty() || created)
      modifies this
      ensures r.Ok? <==> !old(created) && Creatable(storage, validated, intent, old(NextTick()))
      ensures r.Ok? ==> schedule == LaterTicks(old(schedule))
      ensures old(created) ==> r.Err? && files == old(files) && history == old(history)
      ensures r.Ok? ==>
        && r.value == FirstRecord(validated, intent, storage.workspaceHash, old(NextTick()).now)
        && files == map[RecordName(0) := Whole(r.value)] && history == [r.value]
      ensures r.Ok? ==> NewlyCreated(r.value, validated, intent, storage.workspaceHash, old(NextTick()).now)
      ensures r.Ok? ==> (Valid() <==> ValidRecord(r.value, storage.id, storage.workspaceHash, storage.codec))
      ensures r.Ok? ==> storage.size(r.value) <= MAX_RECORD_BYTES
      ensures r.Err? ==> history == old(history)
      ensures illegal == old(illegal)
    {
      hide Good, ValidRecord, RecordName, TempName, FirstRecord, NewlyCreated;
      var t := TakeTick();
      if !t.locks {
        return Err(IoFailure);
      }
      var name := validated.plan.planId;
      if name == "" || |name| > 160
         || exists c :: c in name
              && !('a' <= c <= 'z') && !('A' <= c <= 'Z') && !('0' <= c <= '9') && c != '-' && c != '_' && c != '.'
      {
        return Err(WrongProposal);
      }
      if created {
        return Err(AlreadyExists);
      }
      created := true;
      var record := FirstRecord(validated, intent, storage.workspaceHash, t.now);
      FirstSequence(validated, intent, storage.workspaceHash, t.now);
      FirstIsNew(validated, intent, storage.workspaceHash, t.now);
      if storage.size(record) > MAX_RECORD_BYTES {
        return Err(TooLarge);
      }
      var temp := TempName(0, process, counter);
      TempIsNoGeneration(0, process, counter, 0);
      counter := counter + 1;
      files := files[temp := Torn];
      if !t.writes {
        return Err(IoFailure);
      }
      files := files[temp := Whole(record)];
      if !t.renames {
        files := files - {temp};
        return Err(IoFailure);
      }
      files := (files - {temp})[RecordName(0) := Whole(record)];
      assert files == map[RecordName(0) := Whole(record)];
      history := [record];
      FirstGeneration(storage, record, process, counter);
      return Ok(record);
    }

    /** `create_with_intent`: the plan must pass against the intent first. */
    method CreateWithIntent(validated: ValidatedEditPlan, v: ValidatedIntent)
        returns (r: Result<ProposalRecord, Option<StoreError>>)
      requires storage.id == validated.plan.planId && (Empty() || created)
      modifies this
      ensures r.Ok? <==>
        && PlanOkForIntent(validated, v, storage.codec) && BindingOk(FromValidated(v, storage.codec), storage.codec)
        && !old(created)
        && Creatable(storage, validated, Some(FromValidated(v, storage.codec)), old(NextTick()))
      ensures r.Ok? ==> (Valid() <==>
        validated.plan.workspaceRootHash == storage.workspaceHash && old(NextTick()).now <= validated.plan.expiresAt)
      ensures r.Ok? ==> history == [r.value] && r.value.intent == Some(FromValidated(v, storage.codec))
    {
      hide Good, ValidRecord, RecordName, PlanOkForIntent, BindingOk, Valid, Creatable;
      var accepted := ValidatePlanAgainstIntent(validated, v, storage.codec);
      if accepted.Err? {
        return Err(None);
      }
      var binding := FromValidated(v, storage.codec);
      var bound := ValidateBinding(binding, storage.codec);
      if bound.Err? {
        return Err(None);
      }
      CreatedWithIntentIsValidIff(validated, v, storage.workspaceHash, NextTick().now, storage.codec);
      var created := CreateRecord(validated, Some(binding));
      if created.Err? {
        return Err(Some(created.error));
      }
      return Ok(created.value);
    }

    method Load() returns (r: Result<ProposalRecord, StoreError>)
      requires Valid()
      ensures r == if |history| <= MAX_RECORD_GENERATIONS then Ok(Last()) else Err(TooManyGenerations)
    {
      hide Good, IsNewest, NothingAccepted, Candidates;
      ReadingGood(storage, files, history, process, counter);
      r := LoadLatestValidRecord(storage, files);
    }

    /** `publish_record`: a temporary file, then one rename. */
    method Publish(record: ProposalRecord, t: Tick) returns (r: Result<(), StoreError>)
      requires Valid() && record.sequence == |history| <= U32_MAX
      requires ValidRecord(record, storage.id, storage.workspaceHash, storage.codec) && Succeeds(record, Last())
      modifies this`files, this`counter, this`history
      ensures Valid()
      ensures r.Ok? <==> storage.size(record) <= MAX_RECORD_BYTES && t.writes && t.renames
      ensures history == if r.Ok? then old(history) + [record] else old(history)
      ensures r.Err? ==> r.error != InvalidTransition
    {
      hide Good, ValidRecord, Succeeds, RecordName, TempName;
      if storage.size(record) > MAX_RECORD_BYTES {
        return Err(TooLarge);
      }
      AfterRename(storage, files, history, process, counter, record);
      WhileWriting(storage, files, history, process, counter, record.sequence, Torn);
      WhileWriting(storage, files, history, process, counter, record.sequence, Whole(record));
      var path := RecordName(record.sequence);
      if path in files {
        return Err(GenerationExists);
      }
      var temp := TempName(record.sequence, process, counter);
      if temp in files {
        return Err(IoFailure);
      }
      ghost var before := files;
      counter := counter + 1;
      files := files[temp := Torn];
      if !t.writes {
        return Err(IoFailure);
      }
      files := files[temp := Whole(record)];
      assert files == before[temp := Whole(record)];
      if !t.renames {
        files := files - {temp};
        return Err(IoFailure);
      }
      files := (files - {temp})[path := Whole(record)];
      history := history + [record];
      return Ok(());
    }

    /** The next entry of the schedule; without one, nothing works. */
    method TakeTick() returns (t: Tick)
      modifies this`schedule
      ensures t == FirstTick(old(schedule)) && schedule == LaterTicks(old(schedule))
    {
      if schedule == [] {
        return Tick(0, false, false, false);
      }
      t := schedule[0];
      schedule := schedule[1..];
    }

    ghost function NextTick(): Tick
      reads this
    {
      FirstTick(schedule)
    }

    /** Lock, load, change, validate, publish. */
    method Update(change: Change) returns (r: Result<ProposalRecord, StoreError>)
      requires Valid()
      modifies this
      ensures Valid()
      ensures r.Ok? <==> old(Permitted(storage, history, change, NextTick()))
      ensures Sayable(change) ==> Now() == old(Attempt(storage, Now(), change))
      ensures r.Ok? ==> r.value == old(Next(Last(), change, NextTick().now)) && history == old(history) + [r.value]
      ensures r.Ok? ==> TookEffect(old(Last()), r.value, change, old(NextTick().now))
      ensures r.Ok? ==> MayTake(old(Last()), change) && Succeeds(r.value, old(Last()))
      ensures r.Err? ==> history == old(history)
      ensures illegal == old(illegal) + (if r == Err(InvalidTransition) then 1 else 0)
      ensures r == Err(InvalidTransition) <==>
        && change.Transition? && !CanTransitionTo(old(Last()).state, change.next)
        && old(NextTick()).locks && |old(history)| <= MAX_RECORD_GENERATIONS
    {
      hide Good, ValidRecord, CanTransitionTo, MayTake, Next, Succeeds, TookEffect;
      LastIsValid(storage, files, history, process, counter);
      var t := TakeTick();
      if !t.locks {
        return Err(IoFailure);
      }
      var loaded := Load();
      if loaded.Err? {
        return Err(loaded.error);
      }
      var next := MakeNext(storage, loaded.value, change, t.now);
      if next.Err? {
        if next.error == InvalidTransition {
          illegal := illegal + 1;
        }
        return Err(next.error);
      }
      var published := Publish(next.value, t);
      if published.Err? {
        return Err(published.error);
      }
      NextTakesEffect(loaded.value, change, t.now);
      return Ok(next.value);
    }

    method Transition(next: ProposalState, reason: string) returns (r: Result<ProposalRecord, StoreError>)
      requires Valid()
      modifies this
      ensures Valid()
      ensures r.Ok? <==> old(Allowed(storage, Now(), Records.Transition(next, reason)))
      ensures Now() == old(Attempt(storage, Now(), Records.Transition(next, reason)))
      ensures r.Ok? ==>
        && r.value == old(Records.Next(Last(), Records.Transition(next, reason), NextTick().now))
        && history == old(history) + [r.value]
      ensures r.Ok? ==>
        && r.value.transitions == old(Last()).transitions
             + [ProposalTransition(|old(Last()).transitions|, next, old(NextTick().now), reason)]
        && r.value == old(Last()).(
             state := next, transitions := r.value.transitions,
             sequence := old(Last()).sequence + 1, updatedAt := old(NextTick().now))
      ensures r.Ok? ==> CanTransitionTo(old(Last()).state, next) && Succeeds(r.value, old(Last()))
      ensures r.Err? ==> history == old(history)
      ensures illegal == old(illegal) + (if r == Err(InvalidTransition) then 1 else 0)
      ensures r == Err(InvalidTransition) <==>
        && !CanTransitionTo(old(Last()).state, next) && ReasonOk(reason)
        && old(NextTick()).locks && |old(history)| <= MAX_RECORD_GENERATIONS
    {
      hide Good, CanTransitionTo, Permitted, Succeeds, Next, Trim, ByteLen;
      if Trim(reason) == "" || ByteLen(reason) > MAX_REASON_BYTES {
        return Err(BadReason);
      }
      r := Update(Records.Transition(next, reason));
    }

    /**
     Expires what has lapsed and can be read. Illegal is asked for exactly when that is in a state the
     table gives no way to expire, and the lock is free.
     */
    method ExpireIfNeeded(now: nat) returns (r: Result<ProposalRecord, StoreError>)
      requires Valid()
      modifies this
      ensures Valid()
      ensures Now() == old(Play(storage, Now(), ExpiryChanges(history, now)))
      ensures r.Ok? <==>
        |old(history)| <= MAX_RECORD_GENERATIONS && old(GoThrough(storage, Now(), ExpiryChanges(history, now)))
      ensures r.Err? ==> history == old(history)
      ensures r.Ok? ==> r.value == Last() && |history| <= MAX_RECORD_GENERATIONS + 1
      ensures r.Ok? ==>
        if now > old(Last()).expiresAt
           && old(Last()).state in {Validated, Verified, VerificationFailed, ApprovalPending}
        then history == old(history) + [r.value] && r.value.state == Expired && Succeeds(r.value, old(Last()))
        else history == old(history) && |history| <= MAX_RECORD_GENERATIONS && illegal == old(illegal)
      ensures illegal == old(illegal) + (if r == Err(InvalidTransition) then 1 else 0)
      ensures r == Err(InvalidTransition) <==>
        && now > old(Last()).expiresAt && old(NextTick()).locks && |old(history)| <= MAX_RECORD_GENERATIONS
        && old(Last()).state in
             {Generated, WorktreePrepared, WorktreeApplied, BuildRunning, Applying, Discarded, Failed}
    {
      hide Good, ReasonOk, CanTransitionTo, Allowed, Attempt, Play, GoThrough, Succeeds;
      ExpiryTable(Last().state);
      TtlReason();
      PlayNothing(storage, Now());
      PlayOne(storage, Now(), Records.Transition(Expired, TTL_REASON));
      var loaded := Load();
      if loaded.Err? {
        return Err(loaded.error);
      }
      var record := loaded.value;
      if IsExpired(record, now) && record.state != Expired {
        r := Transition(Expired, TTL_REASON);
      } else {
        r := Ok(record);
      }
    }
  }
}
