/**
 The files a proposal is about: the mutations made of its snapshots, the checks that the files match
 them, and what an all-or-nothing transaction executor promises. Contents are compared as texts.
 */
module Transactions {
  import opened Wrappers
  import opened EditSchema
  import opened Records

  type Files = map<string, string>

  /** What a committed transaction can be undone from: for every path it touched, its earlier content. */
  type Saved = map<string, Option<string>>

  datatype Disk = Disk(files: Files, journal: map<string, Saved>)

  function Read(files: Files, path: string): Option<string> {
    if path in files then Some(files[path]) else None
  }

  datatype FileMutation =
    | ReplaceFile(path: string, before: string, after: string)
    | CreateFile(path: string, after: string)

  function MutationOf(file: FileSnapshot): FileMutation {
    match file.status
    case Modified =>
      ReplaceFile(file.path, if file.baseContent.Some? then file.baseContent.value else "", file.proposedContent)
    case Created => CreateFile(file.path, file.proposedContent)
  }

  function ProposalMutations(files: seq<FileSnapshot>): seq<FileMutation> {
    seq(|files|, i requires 0 <= i < |files| => MutationOf(files[i]))
  }

  // ---- What an executor is asked to do ----

  /** Every replacement says what is there, and every creation is of a file that is not. */
  predicate Applicable(files: Files, mutations: seq<FileMutation>) {
    forall i :: 0 <= i < |mutations| ==>
      match mutations[i]
      case ReplaceFile(path, before, _) => path in files && files[path] == before
      case CreateFile(path, _) => path !in files
  }

  /** One mutation a file, each with the file's path and proposed content. */
  ghost predicate Proposes(mutations: seq<FileMutation>, snapshots: seq<FileSnapshot>) {
    && |mutations| == |snapshots|
    && forall i :: 0 <= i < |snapshots| ==>
         && mutations[i].path == snapshots[i].path && mutations[i].after == snapshots[i].proposedContent
         && (mutations[i].ReplaceFile? <==> snapshots[i].status == Modified)
  }

  /** A modified file has a base, a created one has none. */
  ghost predicate BasesKept(snapshots: seq<FileSnapshot>) {
    forall file :: file in snapshots ==> (file.status == Modified <==> file.baseContent.Some?)
  }

  /** The mutations of a proposal fit the files exactly when these are the proposal's base. */
  lemma ApplicableIffBase(files: Files, snapshots: seq<FileSnapshot>)
    requires BasesKept(snapshots)
    ensures Proposes(ProposalMutations(snapshots), snapshots)
    ensures Applicable(files, ProposalMutations(snapshots)) <==> Matches(files, snapshots, false)
  {
    var mutations := ProposalMutations(snapshots);
    if Applicable(files, mutations) {
      forall file | file in snapshots ensures Read(files, file.path) == ExpectedContent(file, false) {
        var i :| 0 <= i < |snapshots| && snapshots[i] == file;
        assert mutations[i] == MutationOf(file);
      }
    }
    if Matches(files, snapshots, false) {
      forall i | 0 <= i < |mutations|
        ensures match mutations[i]
                case ReplaceFile(path, before, _) => path in files && files[path] == before
                case CreateFile(path, _) => path !in files
      {
        assert snapshots[i] in snapshots && mutations[i] == MutationOf(snapshots[i]);
      }
    }
  }

  /** Those of a worktree fit whenever the base is checked out there, whatever its line endings. */
  lemma WorktreeApplicable(files: Files, snapshots: seq<FileSnapshot>)
    requires forall file :: file in snapshots ==> BaseAt(files, file)
    ensures Proposes(WorktreeMutationsOf(files, snapshots), snapshots)
    ensures Applicable(files, WorktreeMutationsOf(files, snapshots))
  {
    hide NormalizeLineEndings;
    var mutations := WorktreeMutationsOf(files, snapshots);
    forall i | 0 <= i < |mutations|
      ensures match mutations[i]
              case ReplaceFile(path, before, _) => path in files && files[path] == before
              case CreateFile(path, _) => path !in files
    {
      assert snapshots[i] in snapshots && mutations[i] == WorktreeMutationOf(files, snapshots[i]);
    }
  }

  // ---- Do the files match their snapshots? ----

  function ExpectedContent(file: FileSnapshot, proposed: bool): Option<string> {
    if proposed then Some(file.proposedContent) else file.baseContent
  }

  function ExpectedHash(file: FileSnapshot, proposed: bool): Option<string> {
    if proposed then Some(file.proposedHash) else file.baseHash
  }

  predicate SnapshotMatches(files: Files, file: FileSnapshot, proposed: bool, hash: string -> string) {
    var actual, expectedHash := Read(files, file.path), ExpectedHash(file, proposed);
    && actual == ExpectedContent(file, proposed)
    && (actual.Some? && expectedHash.Some? ==> hash(actual.value) == expectedHash.value)
  }

  /** Every file is as proposed, or as it was before: a created file was absent. */
  ghost predicate Matches(files: Files, snapshots: seq<FileSnapshot>, proposed: bool) {
    forall file :: file in snapshots ==> Read(files, file.path) == ExpectedContent(file, proposed)
  }

  ghost predicate AllMatch(files: Files, snapshots: seq<FileSnapshot>, proposed: bool, hash: string -> string) {
    forall file :: file in snapshots ==> SnapshotMatches(files, file, proposed, hash)
  }

  method VerifySnapshotsAt(files: Files, snapshots: seq<FileSnapshot>, proposed: bool, hash: string -> string)
      returns (ok: bool)
    ensures ok <==> AllMatch(files, snapshots, proposed, hash)
    ensures ok ==> Matches(files, snapshots, proposed)
  {
    for i := 0 to |snapshots|
      invariant AllMatch(files, snapshots[..i], proposed, hash)
    {
      var file := snapshots[i];
      assert file in snapshots;
      var actual, expected := Read(files, file.path), ExpectedContent(file, proposed);
      if actual != expected {
        return false;
      }
      if actual.Some? {
        var expectedHash := ExpectedHash(file, proposed);
        if expectedHash.Some? && hash(actual.value) != expectedHash.value {
          return false;
        }
      }
    }
    return true;
  }

  /** `value.replace("\r\n", "\n")`. */
  function NormalizeLineEndings(s: string): string {
    if |s| < 2 then s
    else if s[0] == '\r' && s[1] == '\n' then "\n" + NormalizeLineEndings(s[2..])
    else [s[0]] + NormalizeLineEndings(s[1..])
  }

  /** No line ending of two characters is left as it is, and nothing else is changed. */
  lemma {:induction false} NormalizeSplits(a: string, b: string)
    ensures NormalizeLineEndings(a + "\r\n" + b) == NormalizeLineEndings(a) + "\n" + NormalizeLineEndings(b)
    decreases |a|
  {
    hide NormalizeLineEndings;
    if a == "" {
      NormalizesPair(b);
      NormalizesNothing();
      assert a + "\r\n" + b == "\r\n" + b;
    } else if "\r\n" <= a {
      var rest := a[2..];
      assert a == "\r\n" + rest && a + "\r\n" + b == "\r\n" + (rest + "\r\n" + b);
      NormalizesPair(rest);
      NormalizesPair(rest + "\r\n" + b);
      NormalizeSplits(rest, b);
    } else {
      var rest := a[1..];
      assert a == [a[0]] + rest && a + "\r\n" + b == [a[0]] + (rest + "\r\n" + b);
      NormalizesOther(a[0], rest);
      NormalizesOther(a[0], rest + "\r\n" + b);
      NormalizeSplits(rest, b);
    }
  }

  lemma NormalizesNothing()
    ensures NormalizeLineEndings("") == ""
  {
  }

  lemma NormalizesPair(s: string)
    ensures NormalizeLineEndings("\r\n" + s) == "\n" + NormalizeLineEndings(s)
  {
    assert ("\r\n" + s)[2..] == s;
  }

  lemma NormalizesOther(c: char, s: string)
    requires c != '\r' || s == "" || s[0] != '\n'
    ensures NormalizeLineEndings([c] + s) == [c] + NormalizeLineEndings(s)
  {
    assert ([c] + s)[1..] == s;
    if s == "" {
      assert [c] + s == [c];
    }
  }

  lemma {:induction false} NothingToNormalize(s: string)
    requires forall i :: 0 <= i < |s| - 1 ==> s[i] != '\r' || s[i + 1] != '\n'
    ensures NormalizeLineEndings(s) == s
  {
    if |s| >= 2 {
      NothingToNormalize(s[1..]);
    }
  }

  /** A checked-out base may differ from the recorded one in its line endings only. */
  ghost predicate BaseAt(files: Files, file: FileSnapshot) {
    match file.status
    case Created => file.path !in files
    case Modified =>
      && file.path in files && file.baseContent.Some?
      && (files[file.path] == file.baseContent.value
          || NormalizeLineEndings(files[file.path]) == NormalizeLineEndings(file.baseContent.value))
  }

  /** Created paths are free; modified files equal their base up to line endings. */
  method CheckBase(files: Files, file: FileSnapshot) returns (ok: bool)
    ensures ok <==> BaseAt(files, file)
  {
    hide NormalizeLineEndings;
    match file.status {
      case Created =>
        return Read(files, file.path).None?;
      case Modified =>
        var actual := Read(files, file.path);
        if actual.None? || file.baseContent.None? {
          return false;
        }
        var base := file.baseContent.value;
        return actual.value == base || NormalizeLineEndings(actual.value) == NormalizeLineEndings(base);
    }
  }

  method VerifyWorktreeBaseAt(files: Files, snapshots: seq<FileSnapshot>) returns (ok: bool)
    ensures ok <==> forall file :: file in snapshots ==> BaseAt(files, file)
  {
    hide BaseAt;
    for i := 0 to |snapshots|
      invariant forall file :: file in snapshots[..i] ==> BaseAt(files, file)
    {
      var base := CheckBase(files, snapshots[i]);
      if !base {
        return false;
      }
    }
    return true;
  }

  lemma FilesAtBase(files: Files, file: FileSnapshot)
    requires BaseAt(files, file) && file.status == Modified
    ensures file.path in files
  {
  }

  function WorktreeMutationOf(files: Files, file: FileSnapshot): FileMutation {
    match file.status
    case Modified => ReplaceFile(file.path, if file.path in files then files[file.path] else "", file.proposedContent)
    case Created => CreateFile(file.path, file.proposedContent)
  }

  function WorktreeMutationsOf(files: Files, snapshots: seq<FileSnapshot>): seq<FileMutation> {
    seq(|snapshots|, i requires 0 <= i < |snapshots| => WorktreeMutationOf(files, snapshots[i]))
  }

  /** In a worktree, modifications replace what was actually checked out. */
  method WorktreeMutations(files: Files, snapshots: seq<FileSnapshot>) returns (r: Option<seq<FileMutation>>)
    ensures r.Some? <==> forall file :: file in snapshots ==> BaseAt(files, file)
    ensures r.Some? ==> r.value == WorktreeMutationsOf(files, snapshots)
  {
    hide BaseAt;
    var mutations: seq<FileMutation> := [];
    for i := 0 to |snapshots|
      invariant |mutations| == i && forall file :: file in snapshots[..i] ==> BaseAt(files, file)
      invariant forall k :: 0 <= k < i ==> mutations[k] == WorktreeMutationOf(files, snapshots[k])
    {
      var file := snapshots[i];
      assert file in snapshots;
      var base := CheckBase(files, file);
      if !base {
        return None;
      }
      if file.status == Modified {
        FilesAtBase(files, file);
        mutations := mutations + [ReplaceFile(file.path, files[file.path], file.proposedContent)];
      } else {
        mutations := mutations + [CreateFile(file.path, file.proposedContent)];
      }
    }
    return Some(mutations);
  }

  // ---- The limits on an actual diff ----

  ghost predicate DiffWithinLimits(limits: EditPlanLimits, d: DiffStatistics) {
    && d.files <= limits.maxFiles && d.addedFiles <= limits.maxCreatedFiles && d.hunks <= limits.maxHunks
    && d.additions <= limits.maxAddedLines && d.deletions <= limits.maxDeletedLines
    && d.additions + d.deletions <= limits.maxChangedLines && d.patchBytes <= limits.maxProposalBytes
    && d.deletedFiles == 0 && d.renamedFiles == 0 && d.binaryFiles == 0
  }

  /** `enforce_actual_diff_limits`. */
  method EnforceDiffLimits(limits: EditPlanLimits, d: DiffStatistics) returns (ok: bool)
    ensures ok <==> DiffWithinLimits(limits, d)
  {
    if d.files > limits.maxFiles || d.addedFiles > limits.maxCreatedFiles || d.hunks > limits.maxHunks
       || d.additions > limits.maxAddedLines || d.deletions > limits.maxDeletedLines
       || d.additions + d.deletions > limits.maxChangedLines || d.patchBytes > limits.maxProposalBytes
    {
      return false;
    }
    return d.deletedFiles == 0 && d.renamedFiles == 0 && d.binaryFiles == 0;
  }

  /** The diff that Git reports counts only if every file reads back as proposed. */
  ghost function Captured(files: Files, snapshots: seq<FileSnapshot>, git: Option<VerifiedDiff>, hash: string -> string)
      : Option<VerifiedDiff>
  {
    if AllMatch(files, snapshots, true, hash) then git else None
  }

  /** Capturing a diff reads every proposed file back first; Git then reports the rest. */
  method CaptureVerifiedDiff(files: Files, snapshots: seq<FileSnapshot>, git: Option<VerifiedDiff>,
                             hash: string -> string)
      returns (r: Option<VerifiedDiff>)
    ensures r == Captured(files, snapshots, git, hash)
    ensures r.Some? ==> AllMatch(files, snapshots, true, hash) && Matches(files, snapshots, true)
  {
    var proposed := VerifySnapshotsAt(files, snapshots, true, hash);
    if !proposed {
      return None;
    }
    return git;
  }

  // ---- The executor ----

  datatype ApplyOutcome =
    | ApplyRaised(error: string)
    | ApplyFinished(committed: bool, rollbackAttempted: bool, rollbackSuccess: Option<bool>, errors: seq<string>)

  datatype RollbackOutcome =
    | RollbackRaised(error: string)
    | RollbackFinished(rolledBack: bool, errors: seq<string>)

  /** Whatever executes transactions: nothing is known of what it does to the disk. */
  datatype Executor = Executor(
    apply: (Disk, seq<FileMutation>, string) -> (ApplyOutcome, Disk),
    rollback: (Disk, string) -> (RollbackOutcome, Disk))

  function Committed(outcome: ApplyOutcome): bool {
    outcome.ApplyFinished? && outcome.committed
  }

  function RolledBackBy(outcome: RollbackOutcome): bool {
    outcome.RollbackFinished? && outcome.rolledBack
  }

  function Written(files: Files, mutations: seq<FileMutation>): Files {
    if mutations == [] then files
    else
      var last := mutations[|mutations| - 1];
      Written(files, mutations[..|mutations| - 1])[last.path := last.after]
  }

  function Touched(mutations: seq<FileMutation>): set<string> {
    set i | 0 <= i < |mutations| :: mutations[i].path
  }

  function Save(files: Files, mutations: seq<FileMutation>): Saved {
    map path | path in Touched(mutations) :: Read(files, path)
  }

  function Restore(files: Files, saved: Saved): Files {
    map path | path in files.Keys + saved.Keys && (path in saved ==> saved[path].Some?) ::
      if path in saved then saved[path].value else files[path]
  }

  /** Commits write every mutation and remember what was there; rollbacks put it back. */
  ghost predicate AllOrNothing(executor: Executor) {
    && (forall d, mutations, id :: Committed(executor.apply(d, mutations, id).0) ==>
          executor.apply(d, mutations, id).1
          == Disk(Written(d.files, mutations), d.journal[id := Save(d.files, mutations)]))
    && (forall d, id :: RolledBackBy(executor.rollback(d, id).0) ==>
          id in d.journal && executor.rollback(d, id).1.files == Restore(d.files, d.journal[id]))
  }

  lemma {:induction false} WrittenElsewhere(files: Files, mutations: seq<FileMutation>, path: string)
    requires path !in Touched(mutations)
    ensures Read(Written(files, mutations), path) == Read(files, path)
  {
    if mutations != [] {
      var init := mutations[..|mutations| - 1];
      assert forall i :: 0 <= i < |init| ==> init[i] == mutations[i];
      assert mutations[|mutations| - 1].path in Touched(mutations);
      WrittenElsewhere(files, init, path);
    }
  }

  /** Restoring what was saved undoes what was written, whatever else the mutations are. */
  lemma {:induction false} RestoreUndoesWrite(files: Files, mutations: seq<FileMutation>)
    ensures Restore(Written(files, mutations), Save(files, mutations)) == files
  {
    var written, saved := Written(files, mutations), Save(files, mutations);
    var restored := Restore(written, saved);
    forall path ensures Read(restored, path) == Read(files, path) {
      if path !in Touched(mutations) {
        WrittenElsewhere(files, mutations, path);
      }
    }
    assert forall path :: path in restored <==> Read(restored, path).Some?;
    assert forall path :: path in files <==> Read(files, path).Some?;
  }
}
