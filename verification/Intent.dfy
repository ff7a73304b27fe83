/**
 Edit intents: what a validated intent promises, the binding stored with a proposal, and the two
 separately written validators.
 */
module Intent {
  import opened Wrappers
  import opened Text
  import opened Utf8
  import opened EditSchema
  import opened Ordering
  import opened PortablePath

  const SCHEMA_VERSION := 1
  const MAX_TARGETS := 16
  const MAX_TASK_BYTES := 64 * 1024
  const MAX_REFERENCES_PER_TARGET := 32
  const TTL_MILLIS := 15 * 60 * 1000
  const MAX_AGE_MILLIS := 5 * 60 * 1000
  const CLOCK_SKEW_MILLIS := 60 * 1000

  datatype SelectionMode = ExplicitReferences | ResolvedContext | Hybrid

  datatype OperationKind = ModifyExisting | CreateTextFile

  datatype Provenance = UserReference | ResolvedReference | ContextManifest | UserRequestedCreation

  datatype Target =
    | ExistingFile(path: string, contentHash: string, referenceIds: seq<string>, provenance: Provenance)
    | ProspectiveFile(path: string, extension: string, referenceIds: seq<string>, provenance: Provenance)

  function KindOf(t: Target): OperationKind {
    if t.ExistingFile? then ModifyExisting else CreateTextFile
  }

  datatype Constraints = Constraints(
    allowedOperations: seq<OperationKind>,
    allowedExtensions: seq<string>,
    limits: EditPlanLimits,
    requireCleanWorktree: bool,
    requireOfflineVerification: bool,
    requireNativeConfirmation: bool)

  datatype EditIntent = EditIntent(
    schemaVersion: nat,
    intentId: string,
    requestId: string,
    workspaceId: string,
    workspaceRootHash: string,
    baseHead: string,
    workingTreeDigest: string,
    task: string,
    selectionMode: SelectionMode,
    targets: seq<Target>,
    constraints: Constraints,
    createdAt: nat,
    expiresAt: nat)

  datatype AllowedExisting = AllowedExisting(path: string, contentHash: string, referenceIds: seq<string>)

  datatype AllowedCreate = AllowedCreate(path: string, referenceIds: seq<string>)

  datatype Expectations = Expectations(
    requestId: string,
    workspaceId: string,
    workspaceRootHash: string,
    baseHead: string,
    workingTreeDigest: string,
    now: nat,
    limits: EditPlanLimits,
    allowedExisting: seq<AllowedExisting>,
    allowedCreate: seq<AllowedCreate>)

  /** Validators answer with the code of the first check that fails. */
  type Verdict = Result<(), string>

  // ---- Identifiers and hashes ----

  predicate IsHex(c: char) {
    '0' <= c <= '9' || 'a' <= c <= 'f' || 'A' <= c <= 'F'
  }

  predicate AllHex(s: string) {
    forall i :: 0 <= i < |s| ==> IsHex(s[i])
  }

  predicate IsHash(value: string) {
    |value| == 64 && AllHex(value)
  }

  predicate IsGitOid(value: string) {
    |value| in {40, 64} && AllHex(value)
  }

  /** A text of so many hexadecimal digits, capital or not. */
  ghost predicate HexText(value: string, n: nat) {
    |value| == n && forall c :: c in value ==>
      0x30 <= c as int <= 0x39 || 0x41 <= c as int <= 0x46 || 0x61 <= c as int <= 0x66
  }

  lemma HashIff(value: string)
    ensures IsHash(value) <==> HexText(value, 64)
  {
    HexDigits(value);
  }

  lemma HexDigits(value: string)
    ensures AllHex(value) <==> HexText(value, |value|)
  {
    if HexText(value, |value|) {
      forall i | 0 <= i < |value| ensures IsHex(value[i]) {
        assert value[i] in value;
      }
    }
  }

  lemma OidIff(value: string)
    ensures IsGitOid(value) <==> HexText(value, 40) || HexText(value, 64)
  {
    HexDigits(value);
  }

  // ---- Envelope, task and time ----

  ghost predicate EnvelopeOk(intent: EditIntent, expected: Expectations) {
    && intent.schemaVersion == SCHEMA_VERSION
    && IdentifierOk(intent.intentId)
    && IdentifierOk(intent.requestId) && intent.requestId == expected.requestId
    && IdentifierOk(intent.workspaceId) && intent.workspaceId == expected.workspaceId
    && IdentifierOk(intent.workspaceRootHash) && intent.workspaceRootHash == expected.workspaceRootHash
    && IdentifierOk(intent.baseHead) && intent.baseHead == expected.baseHead
    && IdentifierOk(intent.workingTreeDigest) && intent.workingTreeDigest == expected.workingTreeDigest
    && HexText(intent.workspaceRootHash, 64) && HexText(intent.workingTreeDigest, 64)
    && (HexText(intent.baseHead, 40) || HexText(intent.baseHead, 64))
  }

  ghost predicate TaskOk(task: string) {
    Trim(task) != "" && ByteLen(task) <= MAX_TASK_BYTES && '\0' !in task
  }

  ghost predicate TimesOk(intent: EditIntent, now: nat) {
    && intent.createdAt <= SaturatingAdd(now, CLOCK_SKEW_MILLIS)
    && now <= SaturatingAdd(intent.createdAt, MAX_AGE_MILLIS)
    && intent.expiresAt > now
    && LifetimeOk(intent.createdAt, intent.expiresAt)
  }

  /** The check on the two timestamps that the binding repeats without a clock. */
  ghost predicate LifetimeOk(createdAt: nat, expiresAt: nat) {
    createdAt < expiresAt <= SaturatingAdd(createdAt, TTL_MILLIS)
  }

  method ValidateEnvelope(intent: EditIntent, expected: Expectations) returns (r: Verdict)
    ensures r.Ok? <==> EnvelopeOk(intent, expected)
  {
    hide IdentifierOk, IsHash, IsGitOid, HexText;
    HashIff(intent.workspaceRootHash);
    HashIff(intent.workingTreeDigest);
    OidIff(intent.baseHead);
    if intent.schemaVersion != SCHEMA_VERSION {
      return Err("intent.schema_version");
    }
    if !IdentifierOk(intent.intentId) {
      return Err("intent.identifier");
    }
    var actual := [intent.requestId, intent.workspaceId, intent.workspaceRootHash, intent.baseHead,
                   intent.workingTreeDigest];
    var trusted := [expected.requestId, expected.workspaceId, expected.workspaceRootHash, expected.baseHead,
                    expected.workingTreeDigest];
    for i := 0 to 5
      invariant forall k :: 0 <= k < i ==> IdentifierOk(actual[k]) && actual[k] == trusted[k]
    {
      if !IdentifierOk(actual[i]) {
        return Err("intent.identifier");
      }
      if actual[i] != trusted[i] {
        return Err("intent.mismatch");
      }
    }
    assert actual[0] == intent.requestId && actual[1] == intent.workspaceId && actual[2] == intent.workspaceRootHash;
    assert actual[3] == intent.baseHead && actual[4] == intent.workingTreeDigest;
    if !IsHash(intent.workspaceRootHash) || !IsHash(intent.workingTreeDigest) {
      return Err("intent.hash_invalid");
    }
    if !IsGitOid(intent.baseHead) {
      return Err("intent.head_invalid");
    }
    return Ok(());
  }

  method ValidateTask(task: string) returns (r: Verdict)
    ensures r.Ok? <==> TaskOk(task)
  {
    hide Trim, ByteLen;
    if Trim(task) == "" || ByteLen(task) > MAX_TASK_BYTES || '\0' in task {
      return Err("intent.task");
    }
    return Ok(());
  }

  method ValidateTimestamps(intent: EditIntent, now: nat) returns (r: Verdict)
    ensures r.Ok? <==> TimesOk(intent, now)
  {
    if intent.createdAt > SaturatingAdd(now, CLOCK_SKEW_MILLIS) {
      return Err("intent.created_at");
    }
    if now > SaturatingAdd(intent.createdAt, MAX_AGE_MILLIS) {
      return Err("intent.stale");
    }
    if intent.expiresAt <= now || intent.expiresAt <= intent.createdAt
       || intent.expiresAt > SaturatingAdd(intent.createdAt, TTL_MILLIS)
    {
      return Err("intent.expiry");
    }
    return Ok(());
  }

  // ---- Constraints ----

  predicate ExtensionAllowed(extension: string) {
    && extension != "" && extension == ToAsciiLowercase(extension) && extension[0] != '.'
    && extension in ALLOWED_EDIT_EXTENSIONS
  }

  ghost predicate ConstraintsOk(c: Constraints, limits: EditPlanLimits) {
    && c.requireCleanWorktree && c.requireOfflineVerification && c.requireNativeConfirmation
    && WithinHardMaxima(c.limits) && LimitsWithin(c.limits, limits)
    && c.allowedOperations != [] && NoDuplicates(c.allowedOperations)
    && (CreateTextFile in c.allowedOperations <==> c.limits.maxCreatedFiles != 0)
    && 0 < |c.allowedExtensions| <= |ALLOWED_EDIT_EXTENSIONS|
    && NoDuplicates(c.allowedExtensions)
    && forall e :: e in c.allowedExtensions ==> ExtensionAllowed(e)
  }

  function SetOf<T(==)>(s: seq<T>): set<T> {
    set x | x in s
  }

  lemma SetOfSnoc<T>(s: seq<T>, x: T)
    ensures SetOf(s + [x]) == SetOf(s) + {x}
  {
  }

  /** `operations.len() != allowed_operations.len()` detects duplicates. */
  lemma {:induction false} SetSize<T(!new)>(s: seq<T>)
    ensures |SetOf(s)| <= |s| && (|SetOf(s)| == |s| <==> NoDuplicates(s))
  {
    if s != [] {
      var t, x := s[..|s| - 1], s[|s| - 1];
      assert s == t + [x];
      SetSize(t);
      SetOfSnoc(t, x);
      NoDuplicatesSnoc(t, x);
      if x in t {
        assert SetOf(s) == SetOf(t);
      }
    }
  }

  method ValidateExtensions(extensions: seq<string>) returns (r: Verdict)
    ensures r.Ok? <==> NoDuplicates(extensions) && forall e :: e in extensions ==> ExtensionAllowed(e)
  {
    var seen: set<string> := {};
    for i := 0 to |extensions|
      invariant seen == SetOf(extensions[..i]) && NoDuplicates(extensions[..i])
      invariant forall e :: e in extensions[..i] ==> ExtensionAllowed(e)
    {
      var extension := extensions[i];
      assert extensions[..i + 1] == extensions[..i] + [extension];
      NoDuplicatesSnoc(extensions[..i], extension);
      if !ExtensionAllowed(extension) {
        return Err("intent.extension_contract");
      }
      if extension in seen {
        RepeatedIn(extensions, i);
        return Err("intent.extension_contract");
      }
      SetOfSnoc(extensions[..i], extension);
      seen := seen + {extension};
    }
    assert extensions[..|extensions|] == extensions;
    return Ok(());
  }

  lemma RepeatedIn<T(!new)>(s: seq<T>, i: nat)
    requires i < |s| && s[i] in s[..i]
    ensures !NoDuplicates(s)
  {
    var j :| 0 <= j < i && s[..i][j] == s[i];
    assert s[j] == s[i];
  }

  method ValidateConstraints(c: Constraints, limits: EditPlanLimits) returns (r: Result<set<OperationKind>, string>)
    ensures r.Ok? <==> ConstraintsOk(c, limits)
    ensures r.Ok? ==> r.value == SetOf(c.allowedOperations)
  {
    hide BoundedByHardMaxima, LimitsExceed, LimitsWithin, WithinHardMaxima, ExtensionAllowed, NoDuplicates;
    LimitsExceedIff(c.limits, limits);
    BoundedIff(c.limits);
    if !c.requireCleanWorktree || !c.requireOfflineVerification || !c.requireNativeConfirmation {
      return Err("intent.security_constraints");
    }
    if !BoundedByHardMaxima(c.limits) || LimitsExceed(c.limits, limits) {
      return Err("intent.limit_escalation");
    }
    var operations := SetOf(c.allowedOperations);
    SetSize(c.allowedOperations);
    if operations == {} || |operations| != |c.allowedOperations| {
      assert c.allowedOperations != [] ==> c.allowedOperations[0] in operations;
      return Err("intent.operation_contract");
    }
    if CreateTextFile in operations {
      if c.limits.maxCreatedFiles == 0 {
        return Err("intent.creation_contract");
      }
    } else if c.limits.maxCreatedFiles != 0 {
      return Err("intent.creation_contract");
    }
    if c.allowedExtensions == [] || |c.allowedExtensions| > |ALLOWED_EDIT_EXTENSIONS| {
      return Err("intent.extension_contract");
    }
    var extensions := ValidateExtensions(c.allowedExtensions);
    if extensions.Err? {
      return Err(extensions.error);
    }
    return Ok(operations);
  }

  // ---- References ----

  ghost predicate ReferencesOk(references: seq<string>) {
    && |references| <= MAX_REFERENCES_PER_TARGET
    && (forall r :: r in references ==> IdentifierOk(r))
    && NoDuplicates(references)
  }

  method ValidateReferenceInventory(references: seq<string>) returns (r: Result<set<string>, string>)
    ensures r.Ok? <==> ReferencesOk(references)
    ensures r.Ok? ==> r.value == SetOf(references)
  {
    hide IdentifierOk;
    if |references| > MAX_REFERENCES_PER_TARGET {
      return Err("intent.reference_limit");
    }
    var result: set<string> := {};
    for i := 0 to |references|
      invariant result == SetOf(references[..i]) && NoDuplicates(references[..i])
      invariant forall r :: r in references[..i] ==> IdentifierOk(r)
    {
      var reference := references[i];
      assert references[..i + 1] == references[..i] + [reference];
      NoDuplicatesSnoc(references[..i], reference);
      if !IdentifierOk(reference) {
        return Err("intent.reference_id");
      }
      if reference in result {
        RepeatedIn(references, i);
        return Err("intent.reference_duplicate");
      }
      SetOfSnoc(references[..i], reference);
      result := result + {reference};
    }
    assert references[..|references|] == references;
    return Ok(result);
  }
}
