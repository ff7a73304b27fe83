/**
 The store's protocol between processes: updaters that hold the workspace lock, readers that do not,
 and crashes at any point. One event is one file-system operation.
 */
module StoreProtocol {
  import opened Wrappers
  import opened EditSchema
  import opened Ordering
  import opened Records
  import opened RecordFiles

  /** Where a process stands. */
  datatype Process =
    | Idle
    | Waiting(change: Change)
    | Locked(change: Change)
    | Prepared(record: ProposalRecord)
    | Opened(record: ProposalRecord, temp: string)
    | Written(record: ProposalRecord, temp: string)
    | Renamed(record: ProposalRecord)
    | Reading(left: seq<(nat, string)>, floor: nat, acked: set<ProposalRecord>)
    | Found(record: ProposalRecord, acked: set<ProposalRecord>)

  /** A finished read, with the updates that had been acknowledged when it began. */
  datatype ReadResult = ReadResult(record: ProposalRecord, acked: set<ProposalRecord>)

  /**
   `history` is what the renames have published so far; it only serves to state the properties, no
   event depends on it.
   */
  datatype World = World(
    files: Directory,
    lock: Option<nat>,
    processes: map<nat, Process>,
    acknowledged: set<ProposalRecord>,
    answers: seq<ReadResult>,
    history: seq<ProposalRecord>)

  datatype Event =
    | Begin(p: nat, change: Change)
    | GiveUp(p: nat)
    | Acquire(p: nat)
    | Prepare(p: nat, loaded: ProposalRecord, now: nat)
    | OpenTemp(p: nat, counter: nat)
    | WriteTemp(p: nat)
    | Rename(p: nat)
    | Return(p: nat)
    | Abort(p: nat, removesTemp: bool)
    | Crash(p: nat)
    | List(p: nat, listing: seq<(nat, string)>)
    | Read(p: nat)
    | Answer(p: nat)

  function At(w: World, p: nat): Process {
    if p in w.processes then w.processes[p] else Idle
  }

  function Move(w: World, p: nat, to: Process): World {
    w.(processes := w.processes[p := to])
  }

  function Release(w: World, p: nat): World {
    if w.lock == Some(p) then w.(lock := None) else w
  }

  predicate HoldsTemp(s: Process) {
    s.Opened? || s.Written?
  }

  /** A listing of the record files, newest first. */
  ghost predicate Listing(files: Directory, listing: seq<(nat, string)>) {
    && Sorted(listing, NewestFirst)
    && (forall c :: c in listing <==> c.1 in files && ParseRecordSequence(c.1) == Some(c.0))
    && |Candidates(files)| <= MAX_RECORD_GENERATIONS
  }

  /** What one event does. */
  ghost predicate Step(storage: Storage, w: World, e: Event, w': World) {
    var s := At(w, e.p);
    match e
    case Begin(p, change) => s.Idle? && w' == Move(w, p, Waiting(change))
    case GiveUp(p) => s.Waiting? && w' == Move(w, p, Idle)
    case Acquire(p) => s.Waiting? && w.lock.None? && w' == Move(w, p, Locked(s.change)).(lock := Some(p))
    case Prepare(p, loaded, now) =>
      && s.Locked? && |Candidates(w.files)| <= MAX_RECORD_GENERATIONS && IsNewest(storage, w.files, loaded)
      && MayTake(loaded, s.change) && loaded.sequence < U32_MAX
      && var record := Next(loaded, s.change, now);
         && ValidRecord(record, storage.id, storage.workspaceHash, storage.codec)
         && storage.size(record) <= MAX_RECORD_BYTES
         && RecordName(record.sequence) !in w.files
         && w' == Move(w, p, Prepared(record))
    case OpenTemp(p, counter) =>
      && s.Prepared?
      && var temp := TempName(s.record.sequence, p, counter);
         && temp !in w.files
         && w' == Move(w, p, Opened(s.record, temp)).(files := w.files[temp := Torn])
    case WriteTemp(p) =>
      s.Opened? && w' == Move(w, p, Written(s.record, s.temp)).(files := w.files[s.temp := Whole(s.record)])
    case Rename(p) =>
      && s.Written? && s.temp in w.files
      && w' == Move(w, p, Renamed(s.record)).(
           files := (w.files - {s.temp})[RecordName(s.record.sequence) := w.files[s.temp]],
           history := w.history + [s.record])
    case Return(p) =>
      s.Renamed? && w' == Release(Move(w, p, Idle).(acknowledged := w.acknowledged + {s.record}), p)
    case Abort(p, removesTemp) =>
      && (s.Locked? || s.Prepared? || HoldsTemp(s))
      && w' == Release(Move(w, p, Idle).(files := if removesTemp && HoldsTemp(s) then w.files - {s.temp} else w.files),
                       p)
    case Crash(p) => w' == Release(Move(w, p, Idle), p)
    case List(p, listing) =>
      s.Idle? && Listing(w.files, listing) && w' == Move(w, p, Reading(listing, |w.history|, w.acknowledged))
    case Read(p) =>
      && s.Reading? && s.left != []
      && var name := s.left[0].1;
         if name in w.files && Accepts(storage, name, w.files[name])
         then w' == Move(w, p, Found(w.files[name].record, s.acked))
         else w' == Move(w, p, s.(left := s.left[1..]))
    case Answer(p) =>
      s.Found? && w' == Move(w, p, Idle).(answers := w.answers + [ReadResult(s.record, s.acked)])
  }

  // ---- The invariant ----

  ghost predicate InHistory(r: ProposalRecord, history: seq<ProposalRecord>) {
    r.sequence < |history| && history[r.sequence] == r
  }

  /** A record that is about to be published: the next generation. */
  ghost predicate IsNextGeneration(storage: Storage, history: seq<ProposalRecord>, r: ProposalRecord) {
    && 0 < |history| <= MAX_RECORD_GENERATIONS
    && r.sequence == |history| && storage.size(r) <= MAX_RECORD_BYTES
    && ValidRecord(r, storage.id, storage.workspaceHash, storage.codec)
    && Succeeds(r, history[|history| - 1])
  }

  /** No later than the newest record of the history when the read began. */
  ghost predicate NotAfter(acked: set<ProposalRecord>, sequence: nat) {
    forall r :: r in acked ==> r.sequence <= sequence
  }

  ghost predicate ProcessOk(storage: Storage, w: World, p: nat, s: Process) {
    match s
    case Idle | Waiting(_) => true
    case Locked(_) => w.lock == Some(p)
    case Prepared(record) => w.lock == Some(p) && IsNextGeneration(storage, w.history, record)
    case Opened(record, temp) =>
      && w.lock == Some(p) && IsNextGeneration(storage, w.history, record)
      && ParseRecordSequence(temp) == None
    case Written(record, temp) =>
      && w.lock == Some(p) && IsNextGeneration(storage, w.history, record)
      && ParseRecordSequence(temp) == None && temp in w.files && w.files[temp] == Whole(record)
    case Renamed(record) => w.lock == Some(p) && InHistory(record, w.history)
    case Reading(left, floor, acked) =>
      && 0 < floor <= |w.history|
      && left != [] && left[0] == (floor - 1, RecordName(floor - 1)) && NotAfter(acked, floor - 1)
    case Found(record, acked) => InHistory(record, w.history) && NotAfter(acked, record.sequence)
  }

  ghost predicate Inv(storage: Storage, w: World) {
    && GoodHistory(storage, w.history) && HoldsExactly(w.files, w.history)
    && (forall p :: p in w.processes ==> ProcessOk(storage, w, p, w.processes[p]))
    && (forall r :: r in w.acknowledged ==> InHistory(r, w.history))
    && (forall read ::
        read in w.answers ==> InHistory(read.record, w.history) && NotAfter(read.acked, read.record.sequence))
  }

  // ---- Steps keep it ----

  /** A process that stands still is not disturbed by one that changes neither the history nor its temporary file. */
  lemma Undisturbed(storage: Storage, w: World, w': World, p: nat, s: Process)
    requires ProcessOk(storage, w, p, s) && w'.history == w.history
    requires w'.lock == w.lock || w.lock != Some(p)
    requires s.Written? ==> s.temp in w'.files && w'.files[s.temp] == w.files[s.temp]
    ensures ProcessOk(storage, w', p, s)
  {
    hide IsNextGeneration, InHistory, NotAfter, RecordName, ParseRecordSequence;
  }

  lemma Others(storage: Storage, w: World, w': World, p: nat, to: Process)
    requires Inv(storage, w) && w'.history == w.history && w'.processes == w.processes[p := to]
    requires w'.lock == w.lock || w.lock == None || w.lock == Some(p)
    requires w'.files == w.files || w.lock == Some(p)
    requires ProcessOk(storage, w', p, to)
    ensures forall q :: q in w'.processes ==> ProcessOk(storage, w', q, w'.processes[q])
  {
    hide IsNextGeneration, InHistory, NotAfter, RecordName, ParseRecordSequence, GoodHistory, HoldsExactly;
    forall q | q in w'.processes ensures ProcessOk(storage, w', q, w'.processes[q]) {
      if q != p {
        Undisturbed(storage, w, w', q, w.processes[q]);
      }
    }
  }

  /** The parts of the invariant that no single process carries. */
  ghost predicate Shared(storage: Storage, w: World) {
    && GoodHistory(storage, w.history) && HoldsExactly(w.files, w.history)
    && (forall r :: r in w.acknowledged ==> InHistory(r, w.history))
    && (forall read ::
        read in w.answers ==> InHistory(read.record, w.history) && NotAfter(read.acked, read.record.sequence))
  }

  lemma InvParts(storage: Storage, w: World)
    ensures Inv(storage, w) <==>
      Shared(storage, w) && forall p :: p in w.processes ==> ProcessOk(storage, w, p, w.processes[p])
  {
    hide GoodHistory, HoldsExactly, InHistory, NotAfter, ProcessOk;
  }

  lemma OwnState(storage: Storage, w: World, p: nat)
    requires Inv(storage, w)
    ensures Shared(storage, w) && ProcessOk(storage, w, p, At(w, p))
  {
    hide GoodHistory, HoldsExactly, InHistory, NotAfter, IsNextGeneration;
  }

  /** From an event of `p` that leaves the history alone. */
  lemma KeepsInv(storage: Storage, w: World, w': World, p: nat, to: Process)
    requires Inv(storage, w) && w'.history == w.history && w'.processes == w.processes[p := to]
    requires w'.lock == w.lock || w.lock == None || w.lock == Some(p)
    requires w'.files == w.files || w.lock == Some(p)
    requires ProcessOk(storage, w', p, to) && Shared(storage, w')
    ensures Inv(storage, w')
  {
    hide *;
    Others(storage, w, w', p, to);
    InvParts(storage, w');
  }

  lemma PrepareKeeps(storage: Storage, w: World, e: Event, w': World)
    requires e.Prepare? && Inv(storage, w) && Step(storage, w, e, w')
    ensures Inv(storage, w')
  {
    hide GoodHistory, HoldsExactly, InHistory, NotAfter, ValidRecord, IsNewest, NothingAccepted, Candidates, RecordName;
    OwnState(storage, w, e.p);
    NewestIsLast(storage, w.files, w.history);
    LastOfGood(storage, w.history);
    CandidateCount(w.files, w.history);
    LastOfGood(storage, w.history);
    var change := At(w, e.p).change;
    var record := Next(e.loaded, change, e.now);
    assert Succeeds(record, e.loaded);
    KeepsInv(storage, w, w', e.p, Prepared(record));
  }

  lemma TempKeeps(storage: Storage, w: World, e: Event, w': World)
    requires (e.OpenTemp? || e.WriteTemp? || e.Abort?) && Inv(storage, w) && Step(storage, w, e, w')
    ensures Inv(storage, w')
  {
    hide GoodHistory, HoldsExactly, InHistory, NotAfter, RecordName, ParseRecordSequence, IsNextGeneration, TempName;
    OwnState(storage, w, e.p);
    LastOfGood(storage, w.history);
    var s := At(w, e.p);
    if e.OpenTemp? {
      var temp := TempName(s.record.sequence, e.p, e.counter);
      TempIsNoRecord(s.record.sequence, e.p, e.counter);
      HoldsWithOther(w.files, w.history, temp, Torn);
      KeepsInv(storage, w, w', e.p, Opened(s.record, temp));
    } else if e.WriteTemp? {
      HoldsWithOther(w.files, w.history, s.temp, Whole(s.record));
      KeepsInv(storage, w, w', e.p, Written(s.record, s.temp));
    } else {
      if HoldsTemp(s) {
        HoldsWithOther(w.files, w.history, s.temp, Torn);
      }
      KeepsInv(storage, w, w', e.p, Idle);
    }
  }

  lemma LockKeeps(storage: Storage, w: World, e: Event, w': World)
    requires (e.Begin? || e.GiveUp? || e.Acquire? || e.Crash?) && Inv(storage, w) && Step(storage, w, e, w')
    ensures Inv(storage, w')
  {
    hide GoodHistory, HoldsExactly, InHistory, NotAfter, RecordName, ParseRecordSequence, IsNextGeneration;
    OwnState(storage, w, e.p);
    KeepsInv(storage, w, w', e.p, At(w', e.p));
  }

  lemma ReturnKeeps(storage: Storage, w: World, e: Event, w': World)
    requires e.Return? && Inv(storage, w) && Step(storage, w, e, w')
    ensures Inv(storage, w')
  {
    hide GoodHistory, HoldsExactly, InHistory, NotAfter;
    OwnState(storage, w, e.p);
    KeepsInv(storage, w, w', e.p, Idle);
  }

  lemma ReadersKeep(storage: Storage, w: World, e: Event, w': World)
    requires (e.List? || e.Read? || e.Answer?) && Inv(storage, w) && Step(storage, w, e, w')
    ensures Inv(storage, w')
  {
    hide GoodHistory, HoldsExactly, InHistory, NotAfter, ValidRecord, RecordName, ParseRecordSequence, Listing, Accepts;
    OwnState(storage, w, e.p);
    var s := At(w, e.p);
    if e.List? {
      ListingStartsNewest(storage, w, e.listing);
      KeepsInv(storage, w, w', e.p, At(w', e.p));
    } else if e.Read? {
      FirstReadFinds(storage, w, e.p);
      KeepsInv(storage, w, w', e.p, At(w', e.p));
    } else {
      assert forall read :: read in w'.answers ==> read in w.answers || read == ReadResult(s.record, s.acked);
      KeepsInv(storage, w, w', e.p, Idle);
    }
  }

  /** Whoever lists the directory sees the newest generation first. */
  lemma ListingStartsNewest(storage: Storage, w: World, listing: seq<(nat, string)>)
    requires Shared(storage, w) && Listing(w.files, listing)
    ensures listing != [] && listing[0] == (|w.history| - 1, RecordName(|w.history| - 1))
    ensures 0 < |w.history| && NotAfter(w.acknowledged, |w.history| - 1)
  {
    hide RecordName, ParseRecordSequence, Candidates;
    LastOfGood(storage, w.history);
    var n := |w.history| - 1;
    ParseOfName(n);
    assert (n, RecordName(n)) in listing;
    var c := listing[0];
    assert c in listing;
    var i :| 0 <= i < |w.history| && c.1 == RecordName(i);
    ParseOfName(i);
    var k :| 0 <= k < |listing| && listing[k] == (n, RecordName(n));
    assert k > 0 ==> NewestFirst(listing[0], listing[k]);
  }

  /** And reading that file succeeds, however many updates came between. */
  lemma FirstReadFinds(storage: Storage, w: World, p: nat)
    requires Inv(storage, w) && At(w, p).Reading?
    ensures var s := At(w, p);
      && s.left != [] && 0 < s.floor <= |w.history| && NotAfter(s.acked, s.floor - 1)
      && var r := w.history[s.floor - 1];
         && s.left[0].1 in w.files && w.files[s.left[0].1] == Whole(r)
         && Accepts(storage, s.left[0].1, Whole(r)) && InHistory(r, w.history) && r.sequence == s.floor - 1
  {
    hide NotAfter, RecordName, ParseRecordSequence, ValidRecord, Succeeds;
    OwnState(storage, w, p);
    var s := At(w, p);
    ParseOfName(s.floor - 1);
  }

  lemma RenameKeeps(storage: Storage, w: World, e: Event, w': World)
    requires e.Rename? && Inv(storage, w) && Step(storage, w, e, w')
    ensures Inv(storage, w')
  {
    hide *;
    RenameShared(storage, w, e, w');
    forall q | q in w'.processes ensures ProcessOk(storage, w', q, w'.processes[q]) {
      OwnState(storage, w, q);
      RenameOthers(storage, w, e, w', q);
    }
    InvParts(storage, w');
  }

  lemma RenameShared(storage: Storage, w: World, e: Event, w': World)
    requires e.Rename? && Inv(storage, w) && Step(storage, w, e, w')
    ensures Shared(storage, w')
  {
    hide GoodHistory, HoldsExactly, NotAfter, RecordName, ParseRecordSequence, ValidRecord, Succeeds;
    OwnState(storage, w, e.p);
    LastOfGood(storage, w.history);
    var s := At(w, e.p);
    GoodOneMore(storage, w.history, s.record);
    HoldsWithOther(w.files, w.history, s.temp, Torn);
    HoldsOneMore(w.files - {s.temp}, w.history, s.record);
  }

  lemma RenameOthers(storage: Storage, w: World, e: Event, w': World, q: nat)
    requires e.Rename? && Inv(storage, w) && Step(storage, w, e, w') && ProcessOk(storage, w, q, At(w, q))
    ensures q in w'.processes ==> ProcessOk(storage, w', q, w'.processes[q])
  {
    hide GoodHistory, HoldsExactly, NotAfter, RecordName, ParseRecordSequence, ValidRecord, Succeeds;
    OwnState(storage, w, e.p);
  }

  lemma StepKeepsInv(storage: Storage, w: World, e: Event, w': World)
    requires Inv(storage, w) && Step(storage, w, e, w')
    ensures Inv(storage, w')
    ensures w.history <= w'.history && w.acknowledged <= w'.acknowledged && w.answers <= w'.answers
  {
    hide Inv, GoodHistory, HoldsExactly, IsNewest, Candidates, Listing, Accepts, RecordName, TempName, ValidRecord;
    if e.Prepare? {
      PrepareKeeps(storage, w, e, w');
    } else if e.OpenTemp? || e.WriteTemp? || e.Abort? {
      TempKeeps(storage, w, e, w');
    } else if e.Rename? {
      RenameKeeps(storage, w, e, w');
    } else if e.Return? {
      ReturnKeeps(storage, w, e, w');
    } else if e.List? || e.Read? || e.Answer? {
      ReadersKeep(storage, w, e, w');
    } else {
      LockKeeps(storage, w, e, w');
    }
  }

  // ---- Whole runs ----

  /** A proposal that was just created: one valid generation, nobody at work. */
  ghost predicate Start(storage: Storage, w: World) {
    && |w.history| == 1 && GoodHistory(storage, w.history) && HoldsExactly(w.files, w.history)
    && w.lock.None? && w.processes == map[] && w.acknowledged == {} && w.answers == []
  }

  ghost predicate Run(storage: Storage, worlds: seq<World>, events: seq<Event>) {
    && |worlds| == |events| + 1 && Start(storage, worlds[0])
    && forall i :: 0 <= i < |events| ==> Step(storage, worlds[i], events[i], worlds[i + 1])
  }

  lemma {:induction false} EveryWorldIsGood(storage: Storage, worlds: seq<World>, events: seq<Event>, i: nat)
    requires Run(storage, worlds, events) && i < |worlds|
    ensures Inv(storage, worlds[i])
  {
    hide Step, GoodHistory, HoldsExactly;
    if i > 0 {
      EveryWorldIsGood(storage, worlds, events, i - 1);
      assert Step(storage, worlds[i - 1], events[i - 1], worlds[i]);
      StepKeepsInv(storage, worlds[i - 1], events[i - 1], worlds[i]);
    }
  }

  lemma {:induction false} WorldsGrow(storage: Storage, worlds: seq<World>, events: seq<Event>, i: nat, j: nat)
    requires Run(storage, worlds, events) && i <= j < |worlds|
    ensures worlds[i].history <= worlds[j].history && worlds[i].acknowledged <= worlds[j].acknowledged
    ensures worlds[i].answers <= worlds[j].answers
    decreases j
  {
    hide Step, GoodHistory, HoldsExactly, Inv;
    if i < j {
      WorldsGrow(storage, worlds, events, i, j - 1);
      EveryWorldIsGood(storage, worlds, events, j - 1);
      assert Step(storage, worlds[j - 1], events[j - 1], worlds[j]);
      StepKeepsInv(storage, worlds[j - 1], events[j - 1], worlds[j]);
    }
  }

  /**
   After any run the record files are exactly generations 0 to n, each valid and each a change of the
   one before; histories of transitions only grow; and what the plan, files and intent were at creation
   they still are.
   */
  lemma FilesAreTheGenerations(storage: Storage, worlds: seq<World>, events: seq<Event>, i: nat)
    requires Run(storage, worlds, events) && i < |worlds|
    ensures var w := worlds[i]; var n := |w.history|;
      && n > 0 && HoldsExactly(w.files, w.history)
      && (forall g :: 0 <= g < n ==> ValidRecord(w.history[g], storage.id, storage.workspaceHash, storage.codec))
      && (forall g :: 0 < g < n ==>
           && w.history[g].sequence == w.history[g - 1].sequence + 1
           && w.history[g - 1].transitions <= w.history[g].transitions
           && SameProposal(w.history[g - 1], w.history[g]))
  {
    hide Run, HoldsExactly, Succeeds, SameProposal, ValidRecord;
    EveryWorldIsGood(storage, worlds, events, i);
    var h := worlds[i].history;
    forall g | 0 < g < |h|
      ensures h[g].sequence == h[g - 1].sequence + 1 && h[g - 1].transitions <= h[g].transitions
        && SameProposal(h[g - 1], h[g])
    {
      SuccessorsExtend(h[g - 1], h[g]);
    }
  }

  /** An acknowledged update is a generation for ever, whatever crashes later. */
  lemma AcknowledgedIsNeverLost(storage: Storage, worlds: seq<World>, events: seq<Event>, i: nat, j: nat,
                                r: ProposalRecord)
    requires Run(storage, worlds, events) && i <= j < |worlds| && r in worlds[i].acknowledged
    ensures InHistory(r, worlds[j].history)
    ensures RecordName(r.sequence) in worlds[j].files && worlds[j].files[RecordName(r.sequence)] == Whole(r)
  {
    hide Run, GoodHistory, RecordName;
    WorldsGrow(storage, worlds, events, i, j);
    EveryWorldIsGood(storage, worlds, events, j);
  }

  /** A read answers with a published generation no older than any update acknowledged before it began. */
  lemma ReadsAreFresh(storage: Storage, worlds: seq<World>, events: seq<Event>, i: nat, a: ReadResult)
    requires Run(storage, worlds, events) && i < |worlds| && a in worlds[i].answers
    ensures InHistory(a.record, worlds[i].history)
    ensures forall r :: r in a.acked ==> r.sequence <= a.record.sequence
  {
    hide Run, GoodHistory, HoldsExactly, InHistory;
    EveryWorldIsGood(storage, worlds, events, i);
  }

  /** A read that has begun finds its record at the first attempt. */
  lemma ReadsDoNotRetry(storage: Storage, worlds: seq<World>, events: seq<Event>, i: nat)
    requires Run(storage, worlds, events) && i < |events| && events[i].Read?
    ensures At(worlds[i + 1], events[i].p).Found?
  {
    hide GoodHistory, HoldsExactly, Inv, Accepts;
    EveryWorldIsGood(storage, worlds, events, i);
    assert Step(storage, worlds[i], events[i], worlds[i + 1]);
    FirstReadFinds(storage, worlds[i], events[i].p);
  }

  // ---- The generation limit ----

  /** The generations of a history, newest first. */
  ghost function Downwards(n: nat): (listing: seq<(nat, string)>)
    ensures |listing| == n
  {
    seq(n, i requires 0 <= i < n => (n - 1 - i, RecordName(n - 1 - i)))
  }

  lemma DownwardsLists(files: Directory, history: seq<ProposalRecord>)
    requires HoldsExactly(files, history) && |history| <= U32_MAX + 1
    ensures forall c: (nat, string) ::
      c in Downwards(|history|) <==> c.1 in files && ParseRecordSequence(c.1) == Some(c.0)
  {
    hide RecordName, ParseRecordSequence;
    var n := |history|;
    forall i | 0 <= i < n ensures ParseRecordSequence(RecordName(i)) == Some(i) && (i, RecordName(i)) in Downwards(n) {
      ParseOfName(i);
      assert Downwards(n)[n - 1 - i] == (i, RecordName(i));
    }
    forall c: (nat, string) | c.1 in files && ParseRecordSequence(c.1) == Some(c.0) ensures c in Downwards(n) {
      var i :| 0 <= i < n && c.1 == RecordName(i);
    }
  }

  /** Up to 4096 generations a read can always begin. */
  lemma ReadsCanBegin(storage: Storage, w: World)
    requires Inv(storage, w) && |w.history| <= MAX_RECORD_GENERATIONS
    ensures exists listing :: Listing(w.files, listing)
  {
    hide GoodHistory, HoldsExactly, RecordName, ParseRecordSequence, Candidates, ProcessOk, InHistory, NotAfter;
    CandidateCount(w.files, w.history);
    DownwardsLists(w.files, w.history);
    var listing: seq<(nat, string)> := Downwards(|w.history|);
    assert Sorted(listing, NewestFirst);
    assert Listing(w.files, listing);
  }

  /**
   Publishing does not look at the limit that reading enforces: once generation 4096 exists, no
   update and no read ever begins again.
   */
  lemma LimitIsSticky(storage: Storage, worlds: seq<World>, events: seq<Event>, i: nat, j: nat)
    requires Run(storage, worlds, events) && i <= j < |worlds| && |worlds[i].history| > MAX_RECORD_GENERATIONS
    ensures worlds[j].history == worlds[i].history
    ensures forall k :: i <= k < j ==> !events[k].List? && !events[k].Prepare?
  {
    hide Step, GoodHistory, HoldsExactly, Inv;
    if i < j {
      LimitIsSticky(storage, worlds, events, i, j - 1);
      EveryWorldIsGood(storage, worlds, events, j - 1);
      assert Step(storage, worlds[j - 1], events[j - 1], worlds[j]);
      BeyondTheLimit(storage, worlds[j - 1], events[j - 1], worlds[j]);
    }
  }

  lemma BeyondTheLimit(storage: Storage, w: World, e: Event, w': World)
    requires Inv(storage, w) && Step(storage, w, e, w') && |w.history| > MAX_RECORD_GENERATIONS
    ensures w'.history == w.history && !e.List? && !e.Prepare?
  {
    hide GoodHistory, HoldsExactly, InHistory, NotAfter, IsNewest, Candidates, Accepts, RecordName, TempName,
         ValidRecord, Succeeds, Sorted;
    OwnState(storage, w, e.p);
    LastOfGood(storage, w.history);
    CandidateCount(w.files, w.history);
  }

  lemma NewestExists(storage: Storage, files: Directory, history: seq<ProposalRecord>)
    requires GoodHistory(storage, history) && HoldsExactly(files, history)
    ensures IsNewest(storage, files, history[|history| - 1])
  {
    hide RecordName, ParseRecordSequence, ValidRecord, Succeeds;
    var n := |history| - 1;
    ParseOfName(n);
    assert Accepts(storage, RecordName(n), files[RecordName(n)]);
    forall name | name in files && Accepts(storage, name, files[name]) ensures files[name].record.sequence <= n {
      var i :| 0 <= i < |history| && name == RecordName(i);
    }
  }

  // ---- The limit is reached ----

  /** The events of one update that nothing disturbs. */
  function UpdateEvents(p: nat, change: Change, loaded: ProposalRecord, now: nat, counter: nat): (events: seq<Event>)
    ensures |events| == 7
  {
    [Begin(p, change), Acquire(p), Prepare(p, loaded, now), OpenTemp(p, counter), WriteTemp(p), Rename(p), Return(p)]
  }

  /** Consecutive worlds of a run. */
  ghost predicate Steps(storage: Storage, worlds: seq<World>, events: seq<Event>) {
    && |worlds| == |events| + 1
    && forall i :: 0 <= i < |events| ==> Step(storage, worlds[i], events[i], worlds[i + 1])
  }

  /** Nobody holds the lock, and process `p` is idle. */
  predicate Free(w: World, p: nat) {
    w.lock.None? && At(w, p).Idle?
  }

  lemma PrepareStep(storage: Storage, w: World, p: nat, change: Change, now: nat) returns (b: World)
    requires Inv(storage, w) && 0 < |w.history| <= MAX_RECORD_GENERATIONS && w.lock == Some(p)
    requires At(w, p) == Locked(change)
    requires var last := w.history[|w.history| - 1];
      MayTake(last, change) && last.createdAt <= now && storage.size(Next(last, change, now)) <= MAX_RECORD_BYTES
    ensures b.history == w.history && b.files == w.files && b.lock == w.lock
    ensures At(b, p) == Prepared(Next(w.history[|w.history| - 1], change, now))
    ensures Step(storage, w, Prepare(p, w.history[|w.history| - 1], now), b)
    ensures w.history[|w.history| - 1].sequence == |w.history| - 1
  {
    hide GoodHistory, HoldsExactly, InHistory, NotAfter, RecordName, TempName, ValidRecord, Candidates, NothingAccepted,
         ParseRecordSequence, IsNewest;
    var last := w.history[|w.history| - 1];
    var record := Next(last, change, now);
    InvParts(storage, w);
    CandidateCount(w.files, w.history);
    NewestExists(storage, w.files, w.history);
    LastOfGood(storage, w.history);
    ChangesKeepValidity(last, change, now, storage.id, storage.workspaceHash, storage.codec);
    assert Succeeds(record, last);
    HoldsOneMore(w.files, w.history, record);
    b := Move(w, p, Prepared(record));
  }

  /** From a prepared record to its temporary file. */
  lemma WriteSteps(storage: Storage, b: World, p: nat, record: ProposalRecord, counter: nat)
      returns (c: World, d: World)
    requires At(b, p) == Prepared(record) && TempName(record.sequence, p, counter) !in b.files && b.lock == Some(p)
    ensures Step(storage, b, OpenTemp(p, counter), c) && Step(storage, c, WriteTemp(p), d)
    ensures var temp := TempName(record.sequence, p, counter);
      && At(d, p) == Written(record, temp) && d.lock == Some(p) && d.history == b.history
      && d.files == b.files[temp := Whole(record)]
  {
    hide RecordName, TempName;
    var temp := TempName(record.sequence, p, counter);
    c := Move(b, p, Opened(record, temp)).(files := b.files[temp := Torn]);
    d := Move(c, p, Written(record, temp)).(files := c.files[temp := Whole(record)]);
  }

  /** From the temporary file to the acknowledged update. */
  lemma RenameSteps(storage: Storage, d: World, p: nat, record: ProposalRecord, temp: string)
      returns (e: World, after: World)
    requires At(d, p) == Written(record, temp) && d.lock == Some(p)
    requires temp in d.files && d.files[temp] == Whole(record)
    ensures Step(storage, d, Rename(p), e) && Step(storage, e, Return(p), after)
    ensures after.history == d.history + [record] && Free(after, p)
    ensures after.files == (d.files - {temp})[RecordName(record.sequence) := Whole(record)]
  {
    hide RecordName;
    e := Move(d, p, Renamed(record)).(
      files := (d.files - {temp})[RecordName(record.sequence) := d.files[temp]], history := d.history + [record]);
    after := Release(Move(e, p, Idle).(acknowledged := e.acknowledged + {record}), p);
  }

  lemma PublishSteps(storage: Storage, b: World, p: nat, record: ProposalRecord, counter: nat)
      returns (c: World, d: World, e: World, after: World)
    requires At(b, p) == Prepared(record) && TempName(record.sequence, p, counter) !in b.files && b.lock == Some(p)
    ensures Step(storage, b, OpenTemp(p, counter), c) && Step(storage, c, WriteTemp(p), d)
    ensures Step(storage, d, Rename(p), e) && Step(storage, e, Return(p), after)
    ensures after.history == b.history + [record] && Free(after, p)
    ensures after.files == b.files[RecordName(record.sequence) := Whole(record)]
  {
    hide *;
    var temp := TempName(record.sequence, p, counter);
    c, d := WriteSteps(storage, b, p, record, counter);
    e, after := RenameSteps(storage, d, p, record, temp);
    assert b.files[temp := Whole(record)] - {temp} == b.files;
  }

  /** Up to 4096 generations an update that nothing disturbs goes through: publishing does not look at the limit. */
  lemma UpdatePublishes(storage: Storage, w: World, p: nat, change: Change, now: nat, counter: nat)
      returns (path: seq<World>)
    requires Inv(storage, w) && |w.history| <= MAX_RECORD_GENERATIONS && Free(w, p)
    requires 0 < |w.history|
    requires var last := w.history[|w.history| - 1];
      MayTake(last, change) && last.createdAt <= now && storage.size(Next(last, change, now)) <= MAX_RECORD_BYTES
    requires TempName(|w.history|, p, counter) !in w.files
    ensures Steps(storage, path, UpdateEvents(p, change, w.history[|w.history| - 1], now, counter))
    ensures path[0] == w && Free(path[7], p)
    ensures var record := Next(w.history[|w.history| - 1], change, now);
      && path[7].history == w.history + [record] && record.sequence == |w.history|
      && path[7].files == w.files[RecordName(|w.history|) := Whole(record)]
  {
    hide *;
    var last := w.history[|w.history| - 1];
    var waiting, locked, b := ReachPrepared(storage, w, p, change, last, now);
    NextSequence(last, change, now);
    var c, d, e, after := PublishSteps(storage, b, p, Next(last, change, now), counter);
    path := SevenSteps(storage, w, waiting, locked, b, c, d, e, after, p, change, last, now, counter);
  }

  lemma ReachPrepared(storage: Storage, w: World, p: nat, change: Change, last: ProposalRecord, now: nat)
      returns (waiting: World, locked: World, b: World)
    requires Inv(storage, w) && 0 < |w.history| <= MAX_RECORD_GENERATIONS && Free(w, p)
    requires last == w.history[|w.history| - 1]
    requires MayTake(last, change) && last.createdAt <= now
    requires storage.size(Next(last, change, now)) <= MAX_RECORD_BYTES
    ensures Step(storage, w, Begin(p, change), waiting) && Step(storage, waiting, Acquire(p), locked)
    ensures Step(storage, locked, Prepare(p, last, now), b)
    ensures At(b, p) == Prepared(Next(last, change, now)) && b.lock == Some(p)
    ensures b.history == w.history && b.files == w.files && last.sequence == |w.history| - 1
  {
    hide *;
    waiting, locked := LockSteps(storage, w, p, change);
    StepKeepsInv(storage, w, Begin(p, change), waiting);
    StepKeepsInv(storage, waiting, Acquire(p), locked);
    b := PrepareStep(storage, locked, p, change, now);
  }

  lemma LockSteps(storage: Storage, w: World, p: nat, change: Change) returns (waiting: World, locked: World)
    requires Free(w, p)
    ensures Step(storage, w, Begin(p, change), waiting) && Step(storage, waiting, Acquire(p), locked)
    ensures locked.history == w.history && locked.files == w.files
    ensures locked.lock == Some(p) && At(locked, p) == Locked(change)
  {
    waiting := Move(w, p, Waiting(change));
    locked := Move(waiting, p, Locked(change)).(lock := Some(p));
  }

  lemma NextSequence(r: ProposalRecord, change: Change, now: nat)
    ensures Next(r, change, now).sequence == r.sequence + 1
  {
  }

  lemma SevenSteps(storage: Storage, a: World, b: World, c: World, d: World, e: World, f: World, g: World, h: World,
                   p: nat, change: Change, last: ProposalRecord, now: nat, counter: nat)
      returns (path: seq<World>)
    requires Step(storage, a, Begin(p, change), b) && Step(storage, b, Acquire(p), c)
    requires Step(storage, c, Prepare(p, last, now), d) && Step(storage, d, OpenTemp(p, counter), e)
    requires Step(storage, e, WriteTemp(p), f) && Step(storage, f, Rename(p), g) && Step(storage, g, Return(p), h)
    ensures Steps(storage, path, UpdateEvents(p, change, last, now, counter))
    ensures path[0] == a && path[7] == h
  {
    hide Step;
    path := [a, b, c, d, e, f, g, h];
  }

  lemma StepsConcat(storage: Storage, a: seq<World>, e: seq<Event>, b: seq<World>, f: seq<Event>)
    requires Steps(storage, a, e) && Steps(storage, b, f) && a[|a| - 1] == b[0]
    ensures Steps(storage, a + b[1..], e + f)
  {
    hide Step;
    var worlds, events := a + b[1..], e + f;
    forall i | 0 <= i < |events| ensures Step(storage, worlds[i], events[i], worlds[i + 1]) {
      if i >= |e| {
        assert events[i] == f[i - |e|] && worlds[i + 1] == b[i - |e| + 1];
        assert worlds[i] == b[i - |e|];
      }
    }
  }

  /** A first record that can be updated again and again without outgrowing the store. */
  ghost predicate CanGrow(storage: Storage, r: ProposalRecord, now: nat) {
    && GoodHistory(storage, [r]) && |r.policy| <= MAX_POLICY_REFERENCES && r.createdAt <= now
    && forall k: nat :: storage.size(r.(sequence := k, updatedAt := now)) <= MAX_RECORD_BYTES
  }

  /** Generation `n` of a proposal of which only empty policy notes are taken. */
  function Generation(r: ProposalRecord, n: nat, now: nat): ProposalRecord {
    if n == 0 then r else r.(sequence := n, updatedAt := now)
  }

  lemma EmptyNote(r: ProposalRecord, n: nat, now: nat)
    requires |r.policy| <= MAX_POLICY_REFERENCES && r.sequence == 0
    ensures MayTake(Generation(r, n, now), RecordPolicy([]))
    ensures Next(Generation(r, n, now), RecordPolicy([]), now) == Generation(r, n + 1, now)
    ensures Generation(r, n, now).createdAt == r.createdAt
  {
    assert r.policy + [] == r.policy;
  }

  ghost predicate AllGenerations(files: Directory) {
    forall name :: name in files ==> ParseRecordSequence(name).Some?
  }

  /** After `n` undisturbed updates of one process there are `n + 1` generations. */
  lemma {:induction false} UpdatesGrow(storage: Storage, r: ProposalRecord, now: nat, n: nat)
      returns (worlds: seq<World>, events: seq<Event>)
    requires CanGrow(storage, r, now) && n <= MAX_RECORD_GENERATIONS
    ensures Run(storage, worlds, events)
    ensures var w := worlds[|events|];
      && |w.history| == n + 1 && w.history[n] == Generation(r, n, now) && Free(w, 0) && AllGenerations(w.files)
  {
    hide Step, GoodHistory, HoldsExactly, ValidRecord, RecordName, TempName, ParseRecordSequence, Inv, MayTake, Next;
    if n == 0 {
      var w := World(map[RecordName(0) := Whole(r)], None, map[], {}, [], [r]);
      FirstWorld(storage, r, now);
      worlds, events := [w], [];
    } else {
      var before, past := UpdatesGrow(storage, r, now, n - 1);
      var w := before[|past|];
      EveryWorldIsGood(storage, before, past, |past|);
      GrowFacts(storage, r, now);
      EmptyNote(r, n - 1, now);
      NoTempAmong(w.files, n, 0);
      var path := UpdatePublishes(storage, w, 0, RecordPolicy([]), now, 0);
      worlds := before + path[1..];
      events := past + UpdateEvents(0, RecordPolicy([]), w.history[n - 1], now, 0);
      StepsConcat(storage, before, past, path, UpdateEvents(0, RecordPolicy([]), w.history[n - 1], now, 0));
      ParseOfName(n);
    }
  }

  lemma GrowFacts(storage: Storage, r: ProposalRecord, now: nat)
    requires CanGrow(storage, r, now)
    ensures r.sequence == 0 && |r.policy| <= MAX_POLICY_REFERENCES && r.createdAt <= now
    ensures forall n: nat :: n > 0 ==> storage.size(Generation(r, n, now)) <= MAX_RECORD_BYTES
  {
    hide ValidRecord;
    assert [r][0] == r;
  }

  lemma NoTempAmong(files: Directory, sequence: nat, counter: nat)
    requires AllGenerations(files)
    ensures TempName(sequence, 0, counter) !in files
  {
    hide ParseRecordSequence, TempName;
    TempIsNoRecord(sequence, 0, counter);
  }

  lemma FirstWorld(storage: Storage, r: ProposalRecord, now: nat)
    requires CanGrow(storage, r, now)
    ensures Start(storage, World(map[RecordName(0) := Whole(r)], None, map[], {}, [], [r]))
    ensures AllGenerations(map[RecordName(0) := Whole(r)])
  {
    hide ParseRecordSequence, RecordName, ValidRecord;
    ParseOfName(0);
  }

  /**
   A run that gets there: 4096 updates of a fresh proposal all succeed, and then nothing can be read or
   updated any more.
   */
  lemma LimitIsReached(storage: Storage, r: ProposalRecord, now: nat) returns (worlds: seq<World>, events: seq<Event>)
    requires CanGrow(storage, r, now)
    ensures Run(storage, worlds, events) && |worlds[|events|].history| == 4097
    ensures forall e, w' :: Step(storage, worlds[|events|], e, w') ==>
      !e.List? && !e.Prepare? && w'.history == worlds[|events|].history
  {
    hide Step, GoodHistory, Inv;
    worlds, events := UpdatesGrow(storage, r, now, MAX_RECORD_GENERATIONS);
    EveryWorldIsGood(storage, worlds, events, |events|);
    forall e, w' | Step(storage, worlds[|events|], e, w')
      ensures !e.List? && !e.Prepare? && w'.history == worlds[|events|].history
    {
      BeyondTheLimit(storage, worlds[|events|], e, w');
    }
  }
}
