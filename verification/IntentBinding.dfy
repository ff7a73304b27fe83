/**
 The whole of intent validation, the binding that is stored with a proposal, and plan acceptance
 against either. Serialisation and BLAKE3 are parameters: nothing but the shape of a digest is used.
 */
module IntentBinding {
  import opened Wrappers
  import opened EditSchema
  import opened Ordering
  import opened PortablePath
  import opened Intent
  import opened IntentTargets
  import opened IntentCanonical

  /** Everything a binding's own hash is computed from. */
  datatype BindingPayload = BindingPayload(
    schemaVersion: nat,
    intentId: string,
    intentHash: string,
    requestId: string,
    workspaceId: string,
    workspaceRootHash: string,
    baseHead: string,
    workingTreeDigest: string,
    taskHash: string,
    selectionMode: SelectionMode,
    targets: seq<Target>,
    constraints: Constraints,
    createdAt: nat,
    expiresAt: nat)

  datatype Binding = Binding(payload: BindingPayload, bindingHash: string)

  datatype ValidatedIntent = ValidatedIntent(intent: EditIntent, intentHash: string, canonicalJson: string)

  /** The hash function and the two serialisers. */
  datatype Codec = Codec(
    hash: string -> string,
    intentText: EditIntent -> string,
    payloadText: BindingPayload -> string)

  /** BLAKE3 in hexadecimal: always 64 hexadecimal digits. */
  ghost predicate CodecOk(codec: Codec) {
    forall s :: HexText(codec.hash(s), 64)
  }

  // ---- Validating an intent ----

  ghost predicate IntentOk(intent: EditIntent, expected: Expectations) {
    && EnvelopeOk(intent, expected) && TaskOk(intent.task) && TimesOk(intent, expected.now)
    && ConstraintsOk(intent.constraints, expected.limits)
    && TrustedOk(expected)
    && TargetsOk(intent.targets, SetOf(intent.constraints.allowedOperations), intent.constraints.allowedExtensions,
                 intent.selectionMode)
    && AllTrusted(intent.targets, expected)
  }

  function ValidatedOf(intent: EditIntent, codec: Codec): ValidatedIntent {
    var text := codec.intentText(Canonical(intent));
    ValidatedIntent(Canonical(intent), codec.hash(text), text)
  }

  lemma CanonicalIsInOrder(intent: EditIntent)
    ensures InOrder(Canonical(intent).targets) && ConstraintsInOrder(Canonical(intent).constraints)
    ensures SameUpToOrder(intent, Canonical(intent))
  {
    hide *;
    CanonicalParts(intent);
    CanonicalInOrder(intent.targets);
    CanonicalConstraintsInOrder(intent.constraints);
    SortedShapes(intent.targets);
    SameBackwards(CanonicalTargets(intent.targets), intent.targets);
    ConstraintsIdempotent(intent.constraints);
    CanonicalConstraintsIff(intent.constraints, CanonicalConstraints(intent.constraints));
    SameFromParts(intent, Canonical(intent));
  }

  lemma SameFromParts(a: EditIntent, b: EditIntent)
    requires SameTargets(a.targets, b.targets) && SameConstraints(a.constraints, b.constraints)
    requires b == a.(targets := b.targets, constraints := b.constraints)
    ensures SameUpToOrder(a, b)
  {
  }

  method ValidateEditIntent(intent: EditIntent, expected: Expectations, codec: Codec)
      returns (r: Result<ValidatedIntent, string>)
    ensures r.Ok? <==> IntentOk(intent, expected)
    ensures r.Ok? ==> r.value == ValidatedOf(intent, codec)
    ensures r.Ok? ==>
      && InOrder(r.value.intent.targets) && ConstraintsInOrder(r.value.intent.constraints)
      && SameUpToOrder(intent, r.value.intent)
      && r.value.canonicalJson == codec.intentText(r.value.intent)
      && r.value.intentHash == codec.hash(r.value.canonicalJson)
  {
    hide EnvelopeOk, TaskOk, TimesOk, ConstraintsOk, TrustedOk, TargetsOk, AllTrusted, ExistingTable, CreateTable,
         Canonical, SetOf, InOrder, ConstraintsInOrder, SameUpToOrder;
    CanonicalIsInOrder(intent);
    var envelope := ValidateEnvelope(intent, expected);
    if envelope.Err? {
      return Err(envelope.error);
    }
    var task := ValidateTask(intent.task);
    if task.Err? {
      return Err(task.error);
    }
    var times := ValidateTimestamps(intent, expected.now);
    if times.Err? {
      return Err(times.error);
    }
    var operations := ValidateConstraints(intent.constraints, expected.limits);
    if operations.Err? {
      return Err(operations.error);
    }
    var trusted := ValidateTrustedTargets(expected);
    if trusted.Err? {
      return Err(trusted.error);
    }
    var targets := ValidateTargets(intent.targets, operations.value, intent.constraints.allowedExtensions,
                                   intent.selectionMode, expected, trusted.value);
    if targets.Err? {
      return Err(targets.error);
    }
    var canonical := Canonical(intent);
    var text := codec.intentText(canonical);
    return Ok(ValidatedIntent(canonical, codec.hash(text), text));
  }

  // ---- The stored binding ----

  function FromValidated(v: ValidatedIntent, codec: Codec): Binding {
    var payload := BindingPayload(
      SCHEMA_VERSION, v.intent.intentId, v.intentHash, v.intent.requestId, v.intent.workspaceId,
      v.intent.workspaceRootHash, v.intent.baseHead, v.intent.workingTreeDigest, codec.hash(v.intent.task),
      v.intent.selectionMode, v.intent.targets, v.intent.constraints, v.intent.createdAt, v.intent.expiresAt);
    Binding(payload, codec.hash(codec.payloadText(payload)))
  }

  ghost predicate StoredIdentityOk(b: Binding) {
    var p := b.payload;
    && p.schemaVersion == SCHEMA_VERSION
    && IdentifierOk(p.intentId) && IdentifierOk(p.requestId) && IdentifierOk(p.workspaceId)
    && HexText(p.intentHash, 64) && HexText(b.bindingHash, 64) && HexText(p.workspaceRootHash, 64)
    && HexText(p.workingTreeDigest, 64) && HexText(p.taskHash, 64)
    && (HexText(p.baseHead, 40) || HexText(p.baseHead, 64))
  }

  ghost predicate BindingOk(b: Binding, codec: Codec) {
    var p := b.payload;
    && StoredIdentityOk(b)
    && 0 < |p.targets| <= MAX_TARGETS
    && LifetimeOk(p.createdAt, p.expiresAt)
    && ConstraintsOk(p.constraints, HARD_MAXIMA)
    && TargetsOk(p.targets, SetOf(p.constraints.allowedOperations), p.constraints.allowedExtensions, p.selectionMode)
    && CanonicalTargets(p.targets) == p.targets && CanonicalConstraints(p.constraints) == p.constraints
    && codec.hash(codec.payloadText(p)) == b.bindingHash
  }

  method ValidateBinding(b: Binding, codec: Codec) returns (r: Verdict)
    ensures r.Ok? <==> BindingOk(b, codec)
  {
    hide IdentifierOk, IsHash, IsGitOid, HexText, ConstraintsOk, TargetsOk, CanonicalTargets, CanonicalConstraints,
         SetOf;
    var p := b.payload;
    HashIff(p.intentHash);
    HashIff(b.bindingHash);
    HashIff(p.workspaceRootHash);
    HashIff(p.workingTreeDigest);
    HashIff(p.taskHash);
    OidIff(p.baseHead);
    if p.schemaVersion != SCHEMA_VERSION {
      return Err("intent.binding_schema");
    }
    if !IdentifierOk(p.intentId) || !IdentifierOk(p.requestId) || !IdentifierOk(p.workspaceId) {
      return Err("intent.identifier");
    }
    if !IsHash(p.intentHash) || !IsHash(b.bindingHash) || !IsHash(p.workspaceRootHash)
       || !IsHash(p.workingTreeDigest) || !IsHash(p.taskHash)
    {
      return Err("intent.binding_hash_invalid");
    }
    if !IsGitOid(p.baseHead) {
      return Err("intent.binding_head");
    }
    if p.targets == [] || |p.targets| > MAX_TARGETS {
      return Err("intent.binding_targets");
    }
    if p.expiresAt <= p.createdAt || p.expiresAt > SaturatingAdd(p.createdAt, TTL_MILLIS) {
      return Err("intent.binding_expiry");
    }
    var operations := ValidateConstraints(p.constraints, HARD_MAXIMA);
    if operations.Err? {
      return Err(operations.error);
    }
    var targets := ValidateBindingTargets(p.targets, operations.value, p.constraints.allowedExtensions,
                                          p.selectionMode);
    if targets.Err? {
      return Err(targets.error);
    }
    if CanonicalTargets(p.targets) != p.targets || CanonicalConstraints(p.constraints) != p.constraints {
      return Err("intent.binding_canonical");
    }
    if codec.hash(codec.payloadText(p)) != b.bindingHash {
      return Err("intent.binding_hash");
    }
    return Ok(());
  }

  /** What is stored is what was accepted: each identifier in its place, and the hash of its own task. */
  lemma BindingKeeps(v: ValidatedIntent, codec: Codec)
    ensures var b := FromValidated(v, codec);
      var p := b.payload;
      && p.intentId == v.intent.intentId && p.intentHash == v.intentHash && p.requestId == v.intent.requestId
      && p.workspaceId == v.intent.workspaceId && p.workspaceRootHash == v.intent.workspaceRootHash
      && p.baseHead == v.intent.baseHead && p.workingTreeDigest == v.intent.workingTreeDigest
      && p.taskHash == codec.hash(v.intent.task) && p.selectionMode == v.intent.selectionMode
      && p.targets == v.intent.targets && p.constraints == v.intent.constraints
      && p.createdAt == v.intent.createdAt && p.expiresAt == v.intent.expiresAt
      && b.bindingHash == codec.hash(codec.payloadText(p))
  {
  }

  // ---- The two validators agree ----

  lemma HardMaximaSuffice(c: Constraints, limits: EditPlanLimits)
    requires ConstraintsOk(c, limits)
    ensures ConstraintsOk(c, HARD_MAXIMA)
  {
    hide NoDuplicates, ExtensionAllowed;
  }

  lemma CanonicalKeepsInventory(intent: EditIntent, expected: Expectations)
    requires TargetsOk(intent.targets, SetOf(intent.constraints.allowedOperations),
                       intent.constraints.allowedExtensions, intent.selectionMode)
    requires ConstraintsOk(intent.constraints, expected.limits)
    ensures var c := Canonical(intent);
      && ConstraintsOk(c.constraints, HARD_MAXIMA)
      && TargetsOk(c.targets, SetOf(c.constraints.allowedOperations), c.constraints.allowedExtensions, c.selectionMode)
  {
    hide *;
    var c := Canonical(intent);
    CanonicalParts(intent);
    SortedShapes(intent.targets);
    SameBackwards(c.targets, intent.targets);
    ConstraintsIdempotent(intent.constraints);
    CanonicalConstraintsIff(intent.constraints, c.constraints);
    SameConstraintsOk(intent.constraints, c.constraints, expected.limits);
    HardMaximaSuffice(c.constraints, expected.limits);
    TargetsOkOneWay(intent.targets, c.targets, SetOf(intent.constraints.allowedOperations),
                    intent.constraints.allowedExtensions, c.constraints.allowedExtensions, intent.selectionMode,
                    expected);
  }

  lemma CanonicalParts(intent: EditIntent)
    ensures var c := Canonical(intent);
      c == intent.(targets := CanonicalTargets(intent.targets), constraints := CanonicalConstraints(intent.constraints))
  {
    hide CanonicalTargets, CanonicalConstraints;
  }

  /** Whatever the first validator accepts, the second accepts once it is stored. */
  lemma AcceptedIntentsBind(intent: EditIntent, expected: Expectations, codec: Codec)
    requires IntentOk(intent, expected) && CodecOk(codec)
    ensures BindingOk(FromValidated(ValidatedOf(intent, codec), codec), codec)
  {
    hide TargetsOk, ConstraintsOk, TrustedOk, AllTrusted, CanonicalTargets, CanonicalConstraints, IdentifierOk, SetOf,
         TaskOk, HexText;
    CanonicalKeepsInventory(intent, expected);
    TargetsIdempotent(intent.targets);
    ConstraintsIdempotent(intent.constraints);
    InventorySize(Canonical(intent));
  }

  lemma InventorySize(c: EditIntent)
    ensures TargetsOk(c.targets, SetOf(c.constraints.allowedOperations), c.constraints.allowedExtensions,
                      c.selectionMode)
      ==> 0 < |c.targets| <= MAX_TARGETS
  {
    hide TargetOk;
  }

  /** Reordering an intent changes neither its acceptance nor what validation returns. */
  lemma OrderBlind(a: EditIntent, b: EditIntent, expected: Expectations, codec: Codec)
    requires SameUpToOrder(a, b)
    ensures IntentOk(a, expected) <==> IntentOk(b, expected)
    ensures IntentOk(a, expected) ==> ValidatedOf(a, codec) == ValidatedOf(b, codec)
  {
    hide *;
    SameParts(a, b);
    SameParts(b, a);
    if IntentOk(a, expected) {
      OrderBlindOneWay(a, b, expected);
      DistinctPaths(a, expected);
      CanonicalIff(a, b);
      SameValidated(a, b, codec);
    }
    if IntentOk(b, expected) {
      OrderBlindOneWay(b, a, expected);
    }
  }

  /** Two accepted intents get the same canonical form only when they are reorderings of each other. */
  lemma CanonicalFormTellsApart(a: EditIntent, b: EditIntent, expected: Expectations, codec: Codec)
    requires IntentOk(a, expected)
    ensures ValidatedOf(a, codec).intent == ValidatedOf(b, codec).intent <==> SameUpToOrder(a, b)
  {
    hide IntentOk, Canonical, SameUpToOrder;
    DistinctPaths(a, expected);
    CanonicalIff(a, b);
  }

  lemma SameValidated(a: EditIntent, b: EditIntent, codec: Codec)
    requires Canonical(a) == Canonical(b)
    ensures ValidatedOf(a, codec) == ValidatedOf(b, codec)
  {
  }

  lemma DistinctPaths(a: EditIntent, expected: Expectations)
    requires IntentOk(a, expected)
    ensures NoDuplicates(Paths(a.targets))
  {
  }

  lemma SameParts(a: EditIntent, b: EditIntent)
    requires SameUpToOrder(a, b) || SameUpToOrder(b, a)
    ensures SameUpToOrder(a, b) && SameTargets(a.targets, b.targets) && SameConstraints(a.constraints, b.constraints)
  {
  }

  lemma OrderBlindOneWay(a: EditIntent, b: EditIntent, expected: Expectations)
    requires SameUpToOrder(a, b) && IntentOk(a, expected)
    ensures IntentOk(b, expected)
  {
    hide TargetsOk, ConstraintsOk, TrustedOk, AllTrusted, IdentifierOk, TaskOk, HexText, SameTargets, SameConstraints,
         SetOf;
    SameParts(a, b);
    SameConstraintsOk(a.constraints, b.constraints, expected.limits);
    TargetsOkOneWay(a.targets, b.targets, SetOf(a.constraints.allowedOperations), a.constraints.allowedExtensions,
                    b.constraints.allowedExtensions, a.selectionMode, expected);
    assert TimesOk(b, expected.now);
  }
}
