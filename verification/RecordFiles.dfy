/**
 The files of one proposal's records directory: how a generation is named, how names are read back,
 and which record a reader finds.
 */
module RecordFiles {
  import opened Wrappers
  import opened Text
  import opened EditSchema
  import opened Ordering
  import opened IntentBinding
  import opened Records

  const MAX_RECORD_GENERATIONS := 4096

  // ---- Names ----

  function Zeros(n: nat): (s: string)
    ensures |s| == n && AllDigits(s)
  {
    seq(n, _ => '0')
  }

  /** `{:010}`. */
  function Padded(n: nat): (s: string)
    ensures AllDigits(s) && s != ""
  {
    Zeros(if |Decimal(n)| < 10 then 10 - |Decimal(n)| else 0) + Decimal(n)
  }

  function RecordName(sequence: nat): string {
    "record-" + Padded(sequence) + ".json"
  }

  /** The temporary file of one attempt to publish a generation. */
  function TempName(sequence: nat, process: nat, counter: nat): string {
    ".record-" + Padded(sequence) + "-" + Decimal(process) + "-" + Decimal(counter) + ".tmp"
  }

  function StripPrefix(s: string, prefix: string): Option<string> {
    if |prefix| <= |s| && s[..|prefix|] == prefix then Some(s[|prefix|..]) else None
  }

  function StripSuffix(s: string, suffix: string): Option<string> {
    if |suffix| <= |s| && s[|s| - |suffix|..] == suffix then Some(s[..|s| - |suffix|]) else None
  }

  /** `str::parse::<u32>`: an optional plus sign, at least one digit, no overflow. */
  function ParseU32(s: string): Option<nat> {
    var digits := if s != "" && s[0] == '+' then s[1..] else s;
    if digits == "" || !AllDigits(digits) || Number(digits) > U32_MAX then None else Some(Number(digits))
  }

  function ParseRecordSequence(name: string): Option<nat> {
    match StripPrefix(name, "record-")
    case None => None
    case Some(rest) =>
      match StripSuffix(rest, ".json")
      case None => None
      case Some(middle) => ParseU32(middle)
  }

  lemma {:induction false} LeadingZeros(n: nat, digits: string)
    requires AllDigits(digits)
    ensures AllDigits(Zeros(n) + digits) && Number(Zeros(n) + digits) == Number(digits)
    decreases |digits|, n
  {
    if digits == "" {
      assert Zeros(n) + digits == Zeros(n);
      if n > 0 {
        assert Zeros(n)[..n - 1] == Zeros(n - 1);
        LeadingZeros(n - 1, "");
        assert Zeros(n - 1) + "" == Zeros(n - 1);
      }
    } else {
      var init := digits[..|digits| - 1];
      LeadingZeros(n, init);
      assert (Zeros(n) + digits)[..|Zeros(n) + digits| - 1] == Zeros(n) + init;
    }
  }

  lemma NumberOfPadded(n: nat)
    ensures Number(Padded(n)) == n
  {
    LeadingZeros(if |Decimal(n)| < 10 then 10 - |Decimal(n)| else 0, Decimal(n));
    NumberOfDecimal(n);
  }

  /** A generation's name is read back as its number. */
  lemma ParseOfName(n: nat)
    requires n <= U32_MAX
    ensures ParseRecordSequence(RecordName(n)) == Some(n)
  {
    var digits := Padded(n);
    var rest := digits + ".json";
    assert RecordName(n) == "record-" + rest;
    assert RecordName(n)[..7] == "record-" && RecordName(n)[7..] == rest;
    assert rest[|rest| - 5..] == ".json" && rest[..|rest| - 5] == digits;
    assert digits[0] != '+';
    NumberOfPadded(n);
  }

  /** Names are ten digits, or as many as the number has, between a fixed prefix and a fixed suffix. */
  lemma NameShape(n: nat) returns (digits: string)
    ensures RecordName(n) == "record-" + digits + ".json"
    ensures AllDigits(digits) && Number(digits) == n
    ensures |digits| == if |Decimal(n)| < 10 then 10 else |Decimal(n)|
  {
    digits := Padded(n);
    NumberOfPadded(n);
  }

  lemma TempShape(n: nat, process: nat, counter: nat) returns (digits: string)
    ensures TempName(n, process, counter)
      == ".record-" + digits + "-" + Decimal(process) + "-" + Decimal(counter) + ".tmp"
    ensures AllDigits(digits) && Number(digits) == n
    ensures |digits| == if |Decimal(n)| < 10 then 10 else |Decimal(n)|
  {
    digits := Padded(n);
    NumberOfPadded(n);
  }

  /** A name of this shape; a plus sign and any number of zeros are accepted. */
  ghost predicate NamesGeneration(name: string, n: nat, sign: string, digits: string) {
    && sign in {"", "+"} && name == "record-" + (sign + digits + ".json")
    && digits != "" && AllDigits(digits) && Number(digits) == n <= U32_MAX
  }

  lemma ShapeIsRead(name: string, n: nat, sign: string, digits: string)
    requires NamesGeneration(name, n, sign, digits)
    ensures ParseRecordSequence(name) == Some(n)
  {
    hide Number, U32_MAX;
    var middle := sign + digits;
    var rest := middle + ".json";
    assert name[..7] == "record-" && name[7..] == rest;
    assert rest[|rest| - 5..] == ".json" && rest[..|rest| - 5] == middle;
    assert sign == "+" ==> middle[1..] == digits;
    assert sign == "" ==> middle == digits && '0' <= digits[0] <= '9';
  }

  lemma ReadHasShape(name: string, n: nat) returns (sign: string, digits: string)
    requires ParseRecordSequence(name) == Some(n)
    ensures NamesGeneration(name, n, sign, digits)
  {
    hide Number, U32_MAX;
    var rest := name[7..];
    var middle := rest[..|rest| - 5];
    sign := if middle[0] == '+' then "+" else "";
    digits := middle[|sign|..];
    assert middle == sign + digits;
    assert rest == middle + ".json";
  }

  /** Exactly these names are read as generations. */
  lemma ParsesIff(name: string, n: nat)
    ensures ParseRecordSequence(name) == Some(n) <==> exists sign, digits :: NamesGeneration(name, n, sign, digits)
  {
    hide *;
    if ParseRecordSequence(name) == Some(n) {
      var sign, digits := ReadHasShape(name, n);
    }
    forall sign, digits | NamesGeneration(name, n, sign, digits) ensures ParseRecordSequence(name) == Some(n) {
      ShapeIsRead(name, n, sign, digits);
    }
  }

  lemma NamesDiffer(m: nat, n: nat)
    requires m <= U32_MAX && n <= U32_MAX && m != n
    ensures RecordName(m) != RecordName(n)
  {
    hide RecordName, ParseRecordSequence;
    ParseOfName(m);
    ParseOfName(n);
  }

  /** A temporary file is never read as a generation. */
  lemma TempIsNoRecord(sequence: nat, process: nat, counter: nat)
    ensures ParseRecordSequence(TempName(sequence, process, counter)) == None
  {
    var name := TempName(sequence, process, counter);
    assert name[0] == '.';
    assert name[..7][0] != "record-"[0];
  }

  // ---- Contents ----

  /** Either the serialised form of a record, or bytes that do not parse as one. */
  datatype Content = Whole(record: ProposalRecord) | Torn

  type Directory = map<string, Content>

  /** The serialiser's length and the checks on stored intents are parameters of the store. */
  datatype Storage = Storage(codec: Codec, size: ProposalRecord -> nat, id: string, workspaceHash: string)

  /** A reader accepts this file as the generation its name announces. */
  ghost predicate Accepts(storage: Storage, name: string, content: Content) {
    && content.Whole? && storage.size(content.record) <= MAX_RECORD_BYTES
    && ParseRecordSequence(name) == Some(content.record.sequence)
    && ValidRecord(content.record, storage.id, storage.workspaceHash, storage.codec)
  }

  ghost function Candidates(files: Directory): set<string> {
    set name | name in files && ParseRecordSequence(name).Some?
  }

  /** The record that reading the newest valid generation yields; two files may announce the same number. */
  ghost predicate IsNewest(storage: Storage, files: Directory, r: ProposalRecord) {
    && (exists name :: name in files && files[name] == Whole(r) && Accepts(storage, name, files[name]))
    && forall name :: name in files && Accepts(storage, name, files[name]) ==> files[name].record.sequence <= r.sequence
  }

  ghost predicate NothingAccepted(storage: Storage, files: Directory) {
    forall name :: name in files ==> !Accepts(storage, name, files[name])
  }

  predicate NewestFirst(a: (nat, string), b: (nat, string)) {
    a.0 >= b.0
  }

  /** `read_dir`: the names in whatever order the file system gives them. */
  method ListDirectory(files: Directory) returns (names: seq<string>)
    ensures forall name :: name in names <==> name in files
    ensures NoDuplicates(names)
  {
    names := [];
    var rest := files.Keys;
    while rest != {}
      invariant rest <= files.Keys && forall name :: name in names <==> name in files && name !in rest
      invariant NoDuplicates(names)
      decreases rest
    {
      var name :| name in rest;
      NoDuplicatesSnoc(names, name);
      names := names + [name];
      rest := rest - {name};
    }
  }

  ghost function RecordNames(names: seq<string>): set<string> {
    set name | name in names && ParseRecordSequence(name).Some?
  }

  lemma RecordNamesSnoc(names: seq<string>, name: string)
    ensures RecordNames(names + [name])
      == RecordNames(names) + if ParseRecordSequence(name).Some? then {name} else {}
  {
    hide ParseRecordSequence;
  }

  lemma NotAmong(names: seq<string>, i: nat)
    requires NoDuplicates(names) && i < |names|
    ensures names[i] !in names[..i] && names[i] !in RecordNames(names[..i])
  {
    hide ParseRecordSequence;
    assert forall j :: 0 <= j < i ==> names[..i][j] == names[j];
  }

  /** The candidates among the listed names. */
  method ParseNames(names: seq<string>) returns (candidates: seq<(nat, string)>)
    requires NoDuplicates(names)
    ensures forall c :: c in candidates <==> c.1 in names && ParseRecordSequence(c.1) == Some(c.0)
    ensures |candidates| == |RecordNames(names)|
  {
    hide ParseRecordSequence, RecordNames, NoDuplicates;
    candidates := [];
    NoNames();
    for i := 0 to |names|
      invariant forall c :: c in candidates <==> c.1 in names[..i] && ParseRecordSequence(c.1) == Some(c.0)
      invariant |RecordNames(names[..i])| == |candidates|
    {
      assert names[..i + 1] == names[..i] + [names[i]];
      RecordNamesSnoc(names[..i], names[i]);
      NotAmong(names, i);
      var sequence := ParseRecordSequence(names[i]);
      if sequence.Some? {
        candidates := candidates + [(sequence.value, names[i])];
      }
    }
    assert names[..|names|] == names;
  }

  lemma NoNames()
    ensures RecordNames([]) == {}
  {
  }

  lemma NewestFirstOrder()
    ensures TotalOrder(NewestFirst)
  {
  }

  method LoadLatestValidRecord(storage: Storage, files: Directory) returns (r: Result<ProposalRecord, StoreError>)
    ensures r.Ok? ==> |Candidates(files)| <= MAX_RECORD_GENERATIONS && IsNewest(storage, files, r.value)
    ensures r.Err? ==>
      || (r.error == TooManyGenerations && |Candidates(files)| > MAX_RECORD_GENERATIONS)
      || (r.error == NoValidGeneration && |Candidates(files)| <= MAX_RECORD_GENERATIONS
          && NothingAccepted(storage, files))
  {
    hide ParseRecordSequence, ValidRecord, Sort;
    var names := ListDirectory(files);
    var candidates := ParseNames(names);
    ListedCandidates(files, names);
    if |candidates| > MAX_RECORD_GENERATIONS {
      return Err(TooManyGenerations);
    }
    var sorted := Sort(candidates, NewestFirst);
    NewestFirstOrder();
    SortSorted(candidates, NewestFirst);
    SortedElements(candidates);
    for i := 0 to |sorted|
      invariant forall k :: 0 <= k < i ==> !Accepts(storage, sorted[k].1, files[sorted[k].1])
    {
      var (sequence, path) := sorted[i];
      assert sorted[i] in candidates;
      var content := files[path];
      if content == Torn || storage.size(content.record) > MAX_RECORD_BYTES || content.record.sequence != sequence {
        continue;
      }
      var verdict := ValidateRecord(content.record, storage.id, storage.workspaceHash, storage.codec);
      if verdict.Ok? {
        NoneNewer(storage, files, candidates, sorted, i);
        return Ok(content.record);
      }
    }
    AllRefused(storage, files, candidates, sorted);
    return Err(NoValidGeneration);
  }

  lemma ListedCandidates(files: Directory, names: seq<string>)
    requires forall name :: name in names <==> name in files
    ensures RecordNames(names) == Candidates(files)
  {
    hide ParseRecordSequence;
  }

  lemma SortedElements(candidates: seq<(nat, string)>)
    ensures forall c :: c in Sort(candidates, NewestFirst) <==> c in candidates
  {
    forall c ensures c in Sort(candidates, NewestFirst) <==> c in candidates {
      SameElements(Sort(candidates, NewestFirst), candidates, c);
    }
  }

  ghost predicate Complete(files: Directory, candidates: seq<(nat, string)>, sorted: seq<(nat, string)>) {
    && (forall c :: c in candidates <==> c.1 in files && ParseRecordSequence(c.1) == Some(c.0))
    && (forall c :: c in sorted <==> c in candidates) && Sorted(sorted, NewestFirst)
  }

  lemma NoneNewer(storage: Storage, files: Directory, candidates: seq<(nat, string)>, sorted: seq<(nat, string)>,
                  i: nat)
    requires Complete(files, candidates, sorted) && i < |sorted|
    requires sorted[i].1 in files && Accepts(storage, sorted[i].1, files[sorted[i].1])
    requires forall k :: 0 <= k < i ==> sorted[k].1 in files && !Accepts(storage, sorted[k].1, files[sorted[k].1])
    ensures IsNewest(storage, files, files[sorted[i].1].record)
  {
    hide ParseRecordSequence, ValidRecord;
    var r := files[sorted[i].1].record;
    assert sorted[i] in candidates;
    forall name | name in files && Accepts(storage, name, files[name])
      ensures files[name].record.sequence <= r.sequence {
      var c := (files[name].record.sequence, name);
      assert c in candidates;
      var k :| 0 <= k < |sorted| && sorted[k] == c;
      assert k >= i;
    }
  }

  lemma AllRefused(storage: Storage, files: Directory, candidates: seq<(nat, string)>, sorted: seq<(nat, string)>)
    requires Complete(files, candidates, sorted)
    requires forall k ::
      0 <= k < |sorted| ==> sorted[k].1 in files && !Accepts(storage, sorted[k].1, files[sorted[k].1])
    ensures NothingAccepted(storage, files)
  {
    hide ParseRecordSequence, ValidRecord;
    forall name | name in files && ParseRecordSequence(name).Some? ensures !Accepts(storage, name, files[name]) {
      var c := (ParseRecordSequence(name).value, name);
      assert c in candidates && c in sorted;
      var k :| 0 <= k < |sorted| && sorted[k] == c;
    }
  }

  // ---- A directory that holds exactly the generations of a history ----

  ghost predicate GoodHistory(storage: Storage, history: seq<ProposalRecord>) {
    && 0 < |history| <= U32_MAX + 1
    && forall i :: 0 <= i < |history| ==>
      && history[i].sequence == i && storage.size(history[i]) <= MAX_RECORD_BYTES
      && ValidRecord(history[i], storage.id, storage.workspaceHash, storage.codec)
      && (i > 0 ==> Succeeds(history[i], history[i - 1]))
  }

  /** The record files are exactly generations 0 to n, each whole; other names are not records. */
  ghost predicate HoldsExactly(files: Directory, history: seq<ProposalRecord>) {
    && (forall i :: 0 <= i < |history| ==> RecordName(i) in files && files[RecordName(i)] == Whole(history[i]))
    && forall name ::
      name in files && ParseRecordSequence(name).Some? ==> exists i :: 0 <= i < |history| && name == RecordName(i)
  }

  lemma {:induction false} GenerationNames(n: nat) returns (names: set<string>)
    requires n <= U32_MAX + 1
    ensures |names| == n && forall name :: name in names <==> exists i :: 0 <= i < n && name == RecordName(i)
  {
    names := {};
    for k := 0 to n
      invariant |names| == k && forall name :: name in names <==> exists i :: 0 <= i < k && name == RecordName(i)
    {
      forall i | 0 <= i < k ensures RecordName(i) != RecordName(k) {
        NamesDiffer(i, k);
      }
      ghost var before := names;
      names := names + {RecordName(k)};
      forall name ensures name in names <==> exists i :: 0 <= i < k + 1 && name == RecordName(i) {
        if name == RecordName(k) {
          assert name in names;
        }
      }
    }
  }

  lemma CandidateCount(files: Directory, history: seq<ProposalRecord>)
    requires HoldsExactly(files, history) && |history| <= U32_MAX + 1
    ensures |Candidates(files)| == |history|
  {
    hide RecordName, ParseRecordSequence;
    var names := GenerationNames(|history|);
    forall i | 0 <= i < |history| ensures ParseRecordSequence(RecordName(i)) == Some(i) {
      ParseOfName(i);
    }
    assert Candidates(files) == names;
  }

  /** From such a directory a reader gets the newest generation. */
  lemma NewestIsLast(storage: Storage, files: Directory, history: seq<ProposalRecord>)
    requires GoodHistory(storage, history) && HoldsExactly(files, history)
    ensures !NothingAccepted(storage, files)
    ensures forall r :: IsNewest(storage, files, r) ==> r == history[|history| - 1]
  {
    hide RecordName, ParseRecordSequence, ValidRecord, Succeeds;
    var n := |history| - 1;
    ParseOfName(n);
    assert Accepts(storage, RecordName(n), files[RecordName(n)]);
    forall r | IsNewest(storage, files, r) ensures r == history[n] {
      var name :| name in files && files[name] == Whole(r) && Accepts(storage, name, files[name]);
      var i :| 0 <= i < |history| && name == RecordName(i);
      assert history[n].sequence <= r.sequence;
    }
  }

  // ---- One more generation ----

  lemma HoldsWithOther(files: Directory, history: seq<ProposalRecord>, name: string, content: Content)
    requires HoldsExactly(files, history) && |history| <= U32_MAX + 1 && ParseRecordSequence(name) == None
    ensures HoldsExactly(files[name := content], history) && HoldsExactly(files - {name}, history)
  {
    hide RecordName, ParseRecordSequence;
    forall i | 0 <= i < |history| ensures RecordName(i) != name {
      ParseOfName(i);
    }
  }

  lemma HoldsOneMore(files: Directory, history: seq<ProposalRecord>, record: ProposalRecord)
    requires HoldsExactly(files, history) && |history| <= U32_MAX
    ensures RecordName(|history|) !in files
    ensures HoldsExactly(files[RecordName(|history|) := Whole(record)], history + [record])
  {
    hide RecordName, ParseRecordSequence;
    var n := |history|;
    ParseOfName(n);
    forall i | 0 <= i < n ensures RecordName(i) != RecordName(n) {
      NamesDiffer(i, n);
    }
    var after := files[RecordName(n) := Whole(record)];
    forall name | name in after && ParseRecordSequence(name).Some?
      ensures exists i :: 0 <= i < n + 1 && name == RecordName(i)
    {
      if name != RecordName(n) {
        var i :| 0 <= i < n && name == RecordName(i);
      }
    }
  }

  lemma GoodOneMore(storage: Storage, history: seq<ProposalRecord>, record: ProposalRecord)
    requires GoodHistory(storage, history) && |history| <= U32_MAX
    requires record.sequence == |history| && storage.size(record) <= MAX_RECORD_BYTES
    requires ValidRecord(record, storage.id, storage.workspaceHash, storage.codec)
    requires Succeeds(record, history[|history| - 1])
    ensures GoodHistory(storage, history + [record])
  {
    hide ValidRecord, Succeeds;
  }

  lemma LastOfGood(storage: Storage, history: seq<ProposalRecord>)
    requires GoodHistory(storage, history)
    ensures 0 < |history| <= U32_MAX + 1
    ensures var r := history[|history| - 1];
      r.sequence == |history| - 1 && ValidRecord(r, storage.id, storage.workspaceHash, storage.codec)
  {
    hide ValidRecord, Succeeds;
  }

  // ---- Temporary names ----

  /** Attempts with different counters use different temporary files. */
  lemma TempNamesDiffer(m: nat, j: nat, n: nat, k: nat, process: nat)
    requires j != k
    ensures TempName(m, process, j) != TempName(n, process, k)
  {
    hide Padded, Decimal;
    var a := ".record-" + Padded(m) + "-" + Decimal(process);
    var b := ".record-" + Padded(n) + "-" + Decimal(process);
    if Decimal(j) == Decimal(k) {
      DecimalInjective(j, k);
    }
    LastDash(a, Decimal(j), b, Decimal(k));
    var s, t := TempName(m, process, j), TempName(n, process, k);
    assert s[..|s| - 4] == a + "-" + Decimal(j);
    assert t[..|t| - 4] == b + "-" + Decimal(k);
  }

  lemma TempIsNoGeneration(sequence: nat, process: nat, counter: nat, n: nat)
    requires n <= U32_MAX
    ensures TempName(sequence, process, counter) != RecordName(n)
  {
    hide TempName, RecordName, ParseRecordSequence;
    TempIsNoRecord(sequence, process, counter);
    ParseOfName(n);
  }
}
