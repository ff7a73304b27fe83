/** The target inventories: one validator for an incoming intent, another for a stored binding. */
module IntentTargets {
  import opened Wrappers
  import opened EditSchema
  import opened Ordering
  import opened PortablePath
  import opened Intent

  function Paths(targets: seq<Target>): (paths: seq<string>)
    ensures |paths| == |targets|
  {
    Map((t: Target) => t.path, targets)
  }

  predicate ExtensionIn(path: string, extensions: seq<string>) {
    ExtensionOf(path).Some? && ExtensionOf(path).value in extensions
  }

  /** What both validators ask of a single target. */
  ghost predicate TargetOk(t: Target, operations: set<OperationKind>, extensions: seq<string>) {
    PathOk(t.path) && TargetBodyOk(t, operations, extensions)
  }

  ghost predicate TargetBodyOk(t: Target, operations: set<OperationKind>, extensions: seq<string>) {
    && KindOf(t) in operations
    && ReferencesOk(t.referenceIds)
    && ExtensionIn(t.path, extensions)
    && match t
       case ExistingFile(_, hash, references, provenance) =>
         IsHash(hash) && provenance != UserRequestedCreation && (provenance == UserReference ==> references != [])
       case ProspectiveFile(path, extension, _, provenance) =>
         Some(extension) == ExtensionOf(path) && provenance == UserRequestedCreation
  }

  ghost predicate SomeExisting(targets: seq<Target>) {
    exists t :: t in targets && t.ExistingFile?
  }

  ghost predicate SomeProspective(targets: seq<Target>) {
    exists t :: t in targets && t.ProspectiveFile?
  }

  ghost predicate SomeReferenced(targets: seq<Target>) {
    exists t :: t in targets && t.referenceIds != []
  }

  ghost predicate ModeOk(targets: seq<Target>, mode: SelectionMode) {
    match mode
    case ExplicitReferences => forall t :: t in targets ==> t.referenceIds != []
    case Hybrid => SomeReferenced(targets)
    case ResolvedContext => true
  }

  /** What both validators ask of the inventory, without regard to its order. */
  ghost predicate TargetsOk(targets: seq<Target>, operations: set<OperationKind>, extensions: seq<string>,
                            mode: SelectionMode) {
    && 0 < |targets| <= MAX_TARGETS
    && (forall t :: t in targets ==> TargetOk(t, operations, extensions))
    && NoDuplicates(Paths(targets))
    && (ModifyExisting in operations <==> SomeExisting(targets))
    && (CreateTextFile in operations <==> SomeProspective(targets))
    && ModeOk(targets, mode)
  }

  // ---- What the runtime trusts ----

  ghost predicate ExistingEntryOk(a: AllowedExisting) {
    PathOk(a.path) && IsHash(a.contentHash) && ReferencesOk(a.referenceIds)
  }

  ghost predicate CreateEntryOk(a: AllowedCreate) {
    PathOk(a.path) && ReferencesOk(a.referenceIds)
  }

  ghost predicate TrustedOk(expected: Expectations) {
    && (forall a :: a in expected.allowedExisting ==> ExistingEntryOk(a))
    && NoDuplicates(Map((a: AllowedExisting) => a.path, expected.allowedExisting))
    && (forall a :: a in expected.allowedCreate ==> CreateEntryOk(a))
    && NoDuplicates(Map((a: AllowedCreate) => a.path, expected.allowedCreate))
  }

  /** The runtime itself resolved this target, with this content and at least these references. */
  ghost predicate TargetTrusted(t: Target, expected: Expectations) {
    match t
    case ExistingFile(path, hash, references, _) =>
      exists a :: a in expected.allowedExisting && a.path == path && a.contentHash == hash
                  && SetOf(references) <= SetOf(a.referenceIds)
    case ProspectiveFile(path, _, references, _) =>
      exists a :: a in expected.allowedCreate && a.path == path && SetOf(references) <= SetOf(a.referenceIds)
  }

  datatype TrustedTargets = TrustedTargets(
    existing: map<string, (string, set<string>)>,
    prospective: map<string, set<string>>)

  /** The lookup table for a list of entries with distinct paths. */
  ghost predicate ExistingTable(m: map<string, (string, set<string>)>, entries: seq<AllowedExisting>) {
    && (forall a :: a in entries ==> a.path in m && m[a.path] == (a.contentHash, SetOf(a.referenceIds)))
    && (forall p :: p in m ==> exists a :: a in entries && a.path == p)
  }

  ghost predicate CreateTable(m: map<string, set<string>>, entries: seq<AllowedCreate>) {
    && (forall a :: a in entries ==> a.path in m && m[a.path] == SetOf(a.referenceIds))
    && (forall p :: p in m ==> exists a :: a in entries && a.path == p)
  }

  lemma ExistingPathsSnoc(entries: seq<AllowedExisting>, a: AllowedExisting)
    ensures var path := (e: AllowedExisting) => e.path;
      && Map(path, entries + [a]) == Map(path, entries) + [a.path]
      && (a.path in Map(path, entries) <==> exists e :: e in entries && e.path == a.path)
  {
    var paths := Map((e: AllowedExisting) => e.path, entries);
    if e :| e in entries && e.path == a.path {
      var i :| 0 <= i < |entries| && entries[i] == e;
      assert paths[i] == a.path;
    }
  }

  lemma CreatePathsSnoc(entries: seq<AllowedCreate>, a: AllowedCreate)
    ensures var path := (e: AllowedCreate) => e.path;
      && Map(path, entries + [a]) == Map(path, entries) + [a.path]
      && (a.path in Map(path, entries) <==> exists e :: e in entries && e.path == a.path)
  {
    var paths := Map((e: AllowedCreate) => e.path, entries);
    if e :| e in entries && e.path == a.path {
      var i :| 0 <= i < |entries| && entries[i] == e;
      assert paths[i] == a.path;
    }
  }

  ghost predicate ExistingListOk(entries: seq<AllowedExisting>) {
    && (forall a :: a in entries ==> ExistingEntryOk(a))
    && NoDuplicates(Map((a: AllowedExisting) => a.path, entries))
  }

  ghost predicate CreateListOk(entries: seq<AllowedCreate>) {
    && (forall a :: a in entries ==> CreateEntryOk(a))
    && NoDuplicates(Map((a: AllowedCreate) => a.path, entries))
  }

  lemma ExistingListSnoc(entries: seq<AllowedExisting>, a: AllowedExisting, m: map<string, (string, set<string>)>)
    requires ExistingTable(m, entries)
    ensures ExistingListOk(entries + [a]) <==> ExistingListOk(entries) && ExistingEntryOk(a) && a.path !in m
    ensures a.path !in m ==> ExistingTable(m[a.path := (a.contentHash, SetOf(a.referenceIds))], entries + [a])
  {
    hide ExistingEntryOk, NoDuplicates, SetOf;
    var path := (e: AllowedExisting) => e.path;
    ExistingPathsSnoc(entries, a);
    NoDuplicatesSnoc(Map(path, entries), a.path);
    assert forall e :: e in entries + [a] <==> e in entries || e == a;
  }

  lemma CreateListSnoc(entries: seq<AllowedCreate>, a: AllowedCreate, m: map<string, set<string>>)
    requires CreateTable(m, entries)
    ensures CreateListOk(entries + [a]) <==> CreateListOk(entries) && CreateEntryOk(a) && a.path !in m
    ensures a.path !in m ==> CreateTable(m[a.path := SetOf(a.referenceIds)], entries + [a])
  {
    hide CreateEntryOk, NoDuplicates, SetOf;
    var path := (e: AllowedCreate) => e.path;
    CreatePathsSnoc(entries, a);
    NoDuplicatesSnoc(Map(path, entries), a.path);
    assert forall e :: e in entries + [a] <==> e in entries || e == a;
  }

  lemma ExistingListPrefix(entries: seq<AllowedExisting>, k: nat)
    requires k <= |entries|
    ensures ExistingListOk(entries) ==> ExistingListOk(entries[..k])
  {
    hide ExistingEntryOk;
    var path := (e: AllowedExisting) => e.path;
    assert forall a :: a in entries[..k] ==> a in entries;
    assert Map(path, entries[..k]) == Map(path, entries)[..k];
  }

  lemma CreateListPrefix(entries: seq<AllowedCreate>, k: nat)
    requires k <= |entries|
    ensures CreateListOk(entries) ==> CreateListOk(entries[..k])
  {
    hide CreateEntryOk;
    var path := (e: AllowedCreate) => e.path;
    assert forall a :: a in entries[..k] ==> a in entries;
    assert Map(path, entries[..k]) == Map(path, entries)[..k];
  }

  method TrustedExisting(entries: seq<AllowedExisting>) returns (r: Result<map<string, (string, set<string>)>, string>)
    ensures r.Ok? <==> ExistingListOk(entries)
    ensures r.Ok? ==> ExistingTable(r.value, entries)
  {
    hide ExistingListOk, ExistingTable, PathOk, IsHash, ReferencesOk;
    NothingTrusted();
    var table: map<string, (string, set<string>)> := map[];
    for i := 0 to |entries|
      invariant ExistingListOk(entries[..i]) && ExistingTable(table, entries[..i])
    {
      var target := entries[i];
      assert entries[..i + 1] == entries[..i] + [target];
      ExistingListSnoc(entries[..i], target, table);
      ExistingListPrefix(entries, i + 1);
      var path := ValidateRelativePath(target.path);
      if path.Err? {
        return Err("intent.trusted_state_invalid");
      }
      if !IsHash(target.contentHash) {
        return Err("intent.trusted_state_invalid");
      }
      var references := ValidateReferenceInventory(target.referenceIds);
      if references.Err? {
        return Err("intent.trusted_state_invalid");
      }
      if path.value in table {
        return Err("intent.trusted_state_invalid");
      }
      table := table[path.value := (target.contentHash, references.value)];
    }
    assert entries[..|entries|] == entries;
    return Ok(table);
  }

  lemma NothingTrusted()
    ensures ExistingListOk([]) && ExistingTable(map[], []) && CreateListOk([]) && CreateTable(map[], [])
  {
  }

  method TrustedCreate(entries: seq<AllowedCreate>) returns (r: Result<map<string, set<string>>, string>)
    ensures r.Ok? <==> CreateListOk(entries)
    ensures r.Ok? ==> CreateTable(r.value, entries)
  {
    hide CreateListOk, CreateTable, PathOk, ReferencesOk;
    NothingTrusted();
    var table: map<string, set<string>> := map[];
    for i := 0 to |entries|
      invariant CreateListOk(entries[..i]) && CreateTable(table, entries[..i])
    {
      var target := entries[i];
      assert entries[..i + 1] == entries[..i] + [target];
      CreateListSnoc(entries[..i], target, table);
      CreateListPrefix(entries, i + 1);
      var path := ValidateRelativePath(target.path);
      if path.Err? {
        return Err("intent.trusted_state_invalid");
      }
      var references := ValidateReferenceInventory(target.referenceIds);
      if references.Err? || path.value in table {
        return Err("intent.trusted_state_invalid");
      }
      table := table[path.value := references.value];
    }
    assert entries[..|entries|] == entries;
    return Ok(table);
  }

  method ValidateTrustedTargets(expected: Expectations) returns (r: Result<TrustedTargets, string>)
    ensures r.Ok? <==> TrustedOk(expected)
    ensures r.Ok? ==> ExistingTable(r.value.existing, expected.allowedExisting)
    ensures r.Ok? ==> CreateTable(r.value.prospective, expected.allowedCreate)
  {
    hide ExistingEntryOk, CreateEntryOk, ExistingTable, CreateTable;
    var existing := TrustedExisting(expected.allowedExisting);
    if existing.Err? {
      return Err(existing.error);
    }
    var prospective := TrustedCreate(expected.allowedCreate);
    if prospective.Err? {
      return Err(prospective.error);
    }
    return Ok(TrustedTargets(existing.value, prospective.value));
  }

  lemma LookUp(t: Target, expected: Expectations, trusted: TrustedTargets)
    requires ExistingTable(trusted.existing, expected.allowedExisting)
    requires CreateTable(trusted.prospective, expected.allowedCreate)
    ensures t.ExistingFile? ==>
      (TargetTrusted(t, expected) <==>
       t.path in trusted.existing && trusted.existing[t.path].0 == t.contentHash
       && SetOf(t.referenceIds) <= trusted.existing[t.path].1)
    ensures t.ProspectiveFile? ==>
      (TargetTrusted(t, expected) <==>
       t.path in trusted.prospective && SetOf(t.referenceIds) <= trusted.prospective[t.path])
  {
    hide SetOf;
  }

  // ---- The two validators ----

  /** What a validator's loop knows about the targets behind it. */
  ghost predicate Checked(ts: seq<Target>, operations: set<OperationKind>, extensions: seq<string>,
                          seen: set<string>, existing: bool, prospective: bool, referenced: bool) {
    && (forall t :: t in ts ==> TargetOk(t, operations, extensions))
    && NoDuplicates(Paths(ts)) && seen == SetOf(Paths(ts))
    && existing == SomeExisting(ts) && prospective == SomeProspective(ts) && referenced == SomeReferenced(ts)
  }

  lemma CheckedNone(operations: set<OperationKind>, extensions: seq<string>)
    ensures Checked([], operations, extensions, {}, false, false, false)
  {
  }

  lemma PathsSnoc(ts: seq<Target>, t: Target)
    ensures Paths(ts + [t]) == Paths(ts) + [t.path]
  {
  }

  lemma CheckedSnoc(ts: seq<Target>, t: Target, operations: set<OperationKind>, extensions: seq<string>,
                    seen: set<string>, existing: bool, prospective: bool, referenced: bool)
    requires Checked(ts, operations, extensions, seen, existing, prospective, referenced)
    requires TargetOk(t, operations, extensions) && t.path !in seen
    ensures Checked(ts + [t], operations, extensions, seen + {t.path}, existing || t.ExistingFile?,
                    prospective || t.ProspectiveFile?, referenced || t.referenceIds != [])
  {
    hide TargetOk, NoDuplicates;
    PathsSnoc(ts, t);
    SetOfSnoc(Paths(ts), t.path);
    NoDuplicatesSnoc(Paths(ts), t.path);
    assert forall u :: u in ts + [t] <==> u in ts || u == t;
    assert t in ts + [t];
  }

  lemma RepeatedPath(targets: seq<Target>, i: nat)
    requires i < |targets| && targets[i].path in SetOf(Paths(targets[..i]))
    ensures !NoDuplicates(Paths(targets))
  {
    assert Paths(targets[..i]) == Paths(targets)[..i];
    RepeatedIn(Paths(targets), i);
  }

  lemma CheckedAll(targets: seq<Target>, operations: set<OperationKind>, extensions: seq<string>, mode: SelectionMode,
                   seen: set<string>, existing: bool, prospective: bool, referenced: bool)
    requires Checked(targets, operations, extensions, seen, existing, prospective, referenced)
    requires 0 < |targets| <= MAX_TARGETS
    ensures TargetsOk(targets, operations, extensions, mode) <==>
      && (ModifyExisting in operations <==> existing) && (CreateTextFile in operations <==> prospective)
      && (mode == ExplicitReferences ==> forall t :: t in targets ==> t.referenceIds != [])
      && (mode == Hybrid ==> referenced)
  {
    hide TargetOk, NoDuplicates;
  }

  lemma CheckedSeen(ts: seq<Target>, operations: set<OperationKind>, extensions: seq<string>,
                    seen: set<string>, existing: bool, prospective: bool, referenced: bool)
    requires Checked(ts, operations, extensions, seen, existing, prospective, referenced)
    ensures seen == SetOf(Paths(ts))
  {
  }

  lemma NotOk(targets: seq<Target>, i: nat, operations: set<OperationKind>, extensions: seq<string>,
              mode: SelectionMode)
    requires i < |targets|
    ensures !TargetOk(targets[i], operations, extensions) ==> !TargetsOk(targets, operations, extensions, mode)
    ensures targets[i].path in SetOf(Paths(targets[..i])) ==> !TargetsOk(targets, operations, extensions, mode)
  {
    hide TargetOk;
    if targets[i].path in SetOf(Paths(targets[..i])) {
      RepeatedPath(targets, i);
    }
  }

  lemma SizeOk(targets: seq<Target>, operations: set<OperationKind>, extensions: seq<string>, mode: SelectionMode)
    ensures TargetsOk(targets, operations, extensions, mode) ==> 0 < |targets| <= MAX_TARGETS
  {
  }

  method CheckBindingTarget(t: Target, operations: set<OperationKind>, extensions: seq<string>) returns (r: Verdict)
    ensures r.Ok? <==> TargetBodyOk(t, operations, extensions)
  {
    hide ReferencesOk, ExtensionOf, IsHash;
    if KindOf(t) !in operations {
      return Err("intent.binding_target_operation");
    }
    var references := ValidateReferenceInventory(t.referenceIds);
    if references.Err? {
      return Err(references.error);
    }
    EmptyReferences(t.referenceIds);
    var extension := ExtensionOf(t.path);
    if extension.None? {
      return Err("intent.target_extension");
    }
    if extension.value !in extensions {
      return Err("intent.binding_target_extension");
    }
    match t
    case ExistingFile(_, hash, _, provenance) =>
      if !IsHash(hash) || provenance == UserRequestedCreation
          || (provenance == UserReference && references.value == {}) {
        return Err("intent.binding_existing_target");
      }
      return Ok(());
    case ProspectiveFile(_, declared, _, provenance) =>
      if declared != extension.value || provenance != UserRequestedCreation {
        return Err("intent.binding_prospective_target");
      }
      return Ok(());
  }

  lemma EmptyReferences(references: seq<string>)
    ensures SetOf(references) == {} <==> references == []
  {
    if references != [] {
      assert references[0] in SetOf(references);
    }
  }

  lemma TargetOkParts(t: Target, operations: set<OperationKind>, extensions: seq<string>)
    ensures TargetOk(t, operations, extensions) <==> PathOk(t.path) && TargetBodyOk(t, operations, extensions)
  {
  }

  method ValidateBindingTargets(targets: seq<Target>, operations: set<OperationKind>, extensions: seq<string>,
                                mode: SelectionMode)
      returns (r: Verdict)
    ensures r.Ok? <==> TargetsOk(targets, operations, extensions, mode)
  {
    hide *;
    SizeOk(targets, operations, extensions, mode);
    if targets == [] || |targets| > MAX_TARGETS {
      return Err("intent.binding_targets");
    }
    var seen: set<string> := {};
    var existing, prospective, referenced := false, false, false;
    CheckedNone(operations, extensions);
    for i := 0 to |targets|
      invariant Checked(targets[..i], operations, extensions, seen, existing, prospective, referenced)
    {
      var target := targets[i];
      assert targets[..i + 1] == targets[..i] + [target];
      NotOk(targets, i, operations, extensions, mode);
      TargetOkParts(target, operations, extensions);
      CheckedSeen(targets[..i], operations, extensions, seen, existing, prospective, referenced);
      var path := ValidateRelativePath(target.path);
      if path.Err? {
        return Err(path.error);
      }
      if path.value in seen {
        return Err("intent.binding_target_duplicate");
      }
      var body := CheckBindingTarget(target, operations, extensions);
      if body.Err? {
        return Err(body.error);
      }
      CheckedSnoc(targets[..i], target, operations, extensions, seen, existing, prospective, referenced);
      seen := seen + {path.value};
      referenced := referenced || target.referenceIds != [];
      existing := existing || target.ExistingFile?;
      prospective := prospective || target.ProspectiveFile?;
    }
    assert targets[..|targets|] == targets;
    CheckedAll(targets, operations, extensions, mode, seen, existing, prospective, referenced);
    if (ModifyExisting in operations) != existing || (CreateTextFile in operations) != prospective {
      return Err("intent.binding_operation_targets");
    }
    if mode == ExplicitReferences && exists t :: t in targets && t.referenceIds == [] {
      return Err("intent.binding_selection_mode");
    }
    if mode == Hybrid && !referenced {
      return Err("intent.binding_selection_mode");
    }
    return Ok(());
  }

  method CheckIntentTarget(t: Target, operations: set<OperationKind>, extensions: seq<string>,
                           ghost expected: Expectations, trusted: TrustedTargets)
      returns (r: Verdict)
    requires ExistingTable(trusted.existing, expected.allowedExisting)
    requires CreateTable(trusted.prospective, expected.allowedCreate)
    ensures r.Ok? <==> TargetBodyOk(t, operations, extensions) && TargetTrusted(t, expected)
  {
    hide ReferencesOk, ExtensionOf, IsHash, ExistingTable, CreateTable, TargetTrusted, SetOf;
    LookUp(t, expected, trusted);
    EmptyReferences(t.referenceIds);
    if KindOf(t) !in operations {
      return Err("intent.target_operation");
    }
    var references := ValidateReferenceInventory(t.referenceIds);
    if references.Err? {
      return Err(references.error);
    }
    match t {
      case ExistingFile(path, hash, _, provenance) =>
        if provenance == UserRequestedCreation {
          return Err("intent.target_provenance");
        }
        if provenance == UserReference && references.value == {} {
          return Err("intent.target_provenance");
        }
        if !IsHash(hash) {
          return Err("intent.target_hash");
        }
        if path !in trusted.existing {
          return Err("intent.target_not_trusted");
        }
        if hash != trusted.existing[path].0 {
          return Err("intent.target_hash_mismatch");
        }
        if !(references.value <= trusted.existing[path].1) {
          return Err("intent.reference_not_trusted");
        }
      case ProspectiveFile(path, declared, _, provenance) =>
        if provenance != UserRequestedCreation {
          return Err("intent.target_provenance");
        }
        var actual := ExtensionOf(path);
        if actual.None? || declared != actual.value || declared !in extensions {
          return Err("intent.target_extension");
        }
        if path !in trusted.prospective {
          return Err("intent.target_not_trusted");
        }
        if !(references.value <= trusted.prospective[path]) {
          return Err("intent.reference_not_trusted");
        }
    }
    var extension := ExtensionOf(t.path);
    if extension.None? || extension.value !in extensions {
      return Err("intent.target_extension");
    }
    return Ok(());
  }

  ghost predicate AllTrusted(targets: seq<Target>, expected: Expectations) {
    forall t :: t in targets ==> TargetTrusted(t, expected)
  }

  lemma AllTrustedSnoc(targets: seq<Target>, i: nat, expected: Expectations)
    requires i < |targets|
    ensures AllTrusted(targets[..i + 1], expected)
      <==> AllTrusted(targets[..i], expected) && TargetTrusted(targets[i], expected)
    ensures AllTrusted([], expected)
    ensures !TargetTrusted(targets[i], expected) ==> !AllTrusted(targets, expected)
  {
    hide TargetTrusted;
    assert targets[..i + 1] == targets[..i] + [targets[i]];
  }

  method ValidateTargets(targets: seq<Target>, operations: set<OperationKind>, extensions: seq<string>,
                         mode: SelectionMode, ghost expected: Expectations, trusted: TrustedTargets)
      returns (r: Verdict)
    requires ExistingTable(trusted.existing, expected.allowedExisting)
    requires CreateTable(trusted.prospective, expected.allowedCreate)
    ensures r.Ok? <==> TargetsOk(targets, operations, extensions, mode) && AllTrusted(targets, expected)
  {
    hide *;
    SizeOk(targets, operations, extensions, mode);
    if targets == [] || |targets| > MAX_TARGETS {
      return Err("intent.target_limit");
    }
    var seen: set<string> := {};
    var existing, prospective, referenced := false, false, false;
    CheckedNone(operations, extensions);
    AllTrustedSnoc(targets, 0, expected);
    assert targets[..0] == [];
    for i := 0 to |targets|
      invariant Checked(targets[..i], operations, extensions, seen, existing, prospective, referenced)
      invariant AllTrusted(targets[..i], expected)
    {
      var target := targets[i];
      assert targets[..i + 1] == targets[..i] + [target];
      NotOk(targets, i, operations, extensions, mode);
      AllTrustedSnoc(targets, i, expected);
      TargetOkParts(target, operations, extensions);
      CheckedSeen(targets[..i], operations, extensions, seen, existing, prospective, referenced);
      var path := ValidateRelativePath(target.path);
      if path.Err? {
        return Err(path.error);
      }
      if path.value in seen {
        return Err("intent.target_duplicate");
      }
      var body := CheckIntentTarget(target, operations, extensions, expected, trusted);
      if body.Err? {
        return Err(body.error);
      }
      CheckedSnoc(targets[..i], target, operations, extensions, seen, existing, prospective, referenced);
      seen := seen + {path.value};
      referenced := referenced || target.referenceIds != [];
      existing := existing || target.ExistingFile?;
      prospective := prospective || target.ProspectiveFile?;
    }
    assert targets[..|targets|] == targets;
    CheckedAll(targets, operations, extensions, mode, seen, existing, prospective, referenced);
    if (ModifyExisting in operations) != existing {
      return Err("intent.operation_targets");
    }
    if (CreateTextFile in operations) != prospective {
      return Err("intent.operation_targets");
    }
    if mode == ExplicitReferences && exists t :: t in targets && t.referenceIds == [] {
      return Err("intent.selection_mode");
    }
    if mode == Hybrid && !referenced {
      return Err("intent.selection_mode");
    }
    return Ok(());
  }
}
