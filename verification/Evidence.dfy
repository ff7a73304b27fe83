/**
 Grounded answers: the context manifest, the answers built from a document without a model, and the
 validator that checks a response's citations against the manifest.
 */
module Evidence {
  import opened Wrappers
  import opened Text
  import opened Utf8
  import opened Documents
  import opened Ordering
  import opened SnapshotRange
  import opened PatchText

  const GROUNDING_SCHEMA_VERSION := 1

  datatype ContextScope = Automatic | ReferencesPreferred | ReferencesOnly

  datatype EvidenceMode = EvidenceOptional | EvidenceRequired

  datatype Snapshot = Snapshot(
    referenceId: string,
    path: string,
    fileHash: string,
    injectedHash: string,
    range: ManifestRange,
    content: string,
    workspaceId: string)

  datatype ManifestEntry = ManifestEntry(
    referenceId: string,
    path: string,
    hash: string,
    injectedHash: string,
    ranges: seq<ManifestRange>,
    bytesInjected: nat,
    workspaceId: string)

  datatype Manifest = Manifest(scope: ContextScope, workspaceId: string, entries: seq<ManifestEntry>, totalBytes: nat)

  function EntryOf(s: Snapshot): ManifestEntry {
    ManifestEntry(s.referenceId, s.path, s.fileHash, s.injectedHash, [s.range], ByteLen(s.content), s.workspaceId)
  }

  function TotalBytes(snapshots: seq<Snapshot>): nat {
    if snapshots == [] then 0
    else TotalBytes(snapshots[..|snapshots| - 1]) + ByteLen(snapshots[|snapshots| - 1].content)
  }

  /** `build_context_manifest`, its fingerprint aside. */
  function BuildManifest(scope: ContextScope, workspaceId: string, snapshots: seq<Snapshot>): Manifest {
    Manifest(scope, workspaceId, Map(EntryOf, snapshots), TotalBytes(snapshots))
  }

  /** One entry for each snapshot, with its own hashes, range and size; the sizes add up. */
  lemma ManifestSays(scope: ContextScope, workspaceId: string, snapshots: seq<Snapshot>, i: nat)
    requires i < |snapshots|
    ensures var m, s := BuildManifest(scope, workspaceId, snapshots), snapshots[i];
      && m.scope == scope && m.workspaceId == workspaceId && |m.entries| == |snapshots|
      && m.totalBytes == TotalBytes(snapshots)
      && var e := m.entries[i];
      && e.referenceId == s.referenceId && e.path == s.path && e.workspaceId == s.workspaceId
      && e.hash == s.fileHash && e.injectedHash == s.injectedHash
      && e.ranges == [s.range] && e.bytesInjected == |Encode(s.content)|
  {
  }

  lemma {:induction false} TotalBytesConcat(a: seq<Snapshot>, b: seq<Snapshot>)
    ensures TotalBytes(a + b) == TotalBytes(a) + TotalBytes(b)
    ensures |a| == 1 ==> TotalBytes(a) == |Encode(a[0].content)|
  {
    if |a| == 1 {
      assert a[..0] == [];
    }
    if b == [] {
      assert a + b == a;
    } else {
      TotalBytesConcat(a, b[..|b| - 1]);
      assert (a + b)[..|a + b| - 1] == a + b[..|b| - 1];
    }
  }

  datatype Classification = ObservedFact | Inferred | GeneralKnowledge | InsufficientEvidence

  datatype Citation = Citation(path: string, startLine: nat, endLine: nat, contentHash: string)

  datatype Claim = Claim(claimId: string, classification: Classification, evidence: seq<Citation>)

  datatype Response = Response(
    schemaVersion: nat,
    answer: string,
    claims: seq<Claim>,
    usedGeneralKnowledge: bool)

  // ---- The validator ----

  /** `collect::<BTreeMap<_, _>>()` over the entries: the last one with a path counts. */
  function EntryFor(entries: seq<ManifestEntry>, path: string): Option<ManifestEntry> {
    if entries == [] then None
    else
      var last := entries[|entries| - 1];
      if last.path == path then Some(last) else EntryFor(entries[..|entries| - 1], path)
  }

  /** That is the last entry with this path. */
  lemma {:induction false} EntryForIff(entries: seq<ManifestEntry>, path: string, e: ManifestEntry)
    ensures EntryFor(entries, path) == Some(e) <==> exists i :: IsLastAt(entries, path, i) && entries[i] == e
    ensures EntryFor(entries, path).None? <==> forall i :: 0 <= i < |entries| ==> entries[i].path != path
  {
    hide EntryFor;
    LastEntry(entries, path);
    if i :| IsLastAt(entries, path, i) && entries[i] == e {
      IsTheEntry(entries, path, i);
    }
  }

  lemma {:induction false} LastEntry(entries: seq<ManifestEntry>, path: string)
    ensures var r := EntryFor(entries, path);
      if r.Some? then exists i :: IsLastAt(entries, path, i) && entries[i] == r.value
      else forall i :: 0 <= i < |entries| ==> entries[i].path != path
  {
    if entries != [] {
      var n := |entries| - 1;
      if entries[n].path == path {
        assert IsLastAt(entries, path, n);
      } else {
        LastEntry(entries[..n], path);
        if i :| IsLastAt(entries[..n], path, i) && entries[..n][i] == EntryFor(entries[..n], path).value {
          StaysLast(entries, path, i);
        }
        assert entries == entries[..n] + [entries[n]];
      }
    }
  }

  lemma StaysLast(entries: seq<ManifestEntry>, path: string, i: nat)
    requires entries != [] && entries[|entries| - 1].path != path
    requires IsLastAt(entries[..|entries| - 1], path, i)
    ensures IsLastAt(entries, path, i) && entries[i] == entries[..|entries| - 1][i]
  {
    assert entries == entries[..|entries| - 1] + [entries[|entries| - 1]];
  }

  lemma {:induction false} IsTheEntry(entries: seq<ManifestEntry>, path: string, i: nat)
    requires IsLastAt(entries, path, i)
    ensures EntryFor(entries, path) == Some(entries[i])
  {
    var n := |entries| - 1;
    if i != n {
      assert IsLastAt(entries[..n], path, i);
      IsTheEntry(entries[..n], path, i);
    }
  }

  ghost predicate IsLastAt(entries: seq<ManifestEntry>, path: string, i: int) {
    && 0 <= i < |entries| && entries[i].path == path
    && forall j :: i < j < |entries| ==> entries[j].path != path
  }

  predicate CoveredBy(c: Citation, ranges: seq<ManifestRange>) {
    exists i :: 0 <= i < |ranges|
      && ranges[i].startLine <= c.startLine && c.endLine <= ranges[i].endLine && c.startLine <= c.endLine
  }

  predicate CitationOk(c: Citation, manifest: Manifest) {
    var entry := EntryFor(manifest.entries, c.path);
    && entry.Some? && c.contentHash == entry.value.injectedHash && CoveredBy(c, entry.value.ranges)
    && entry.value.workspaceId == manifest.workspaceId
  }

  ghost predicate NeedsEvidence(c: Classification, mode: EvidenceMode) {
    c.ObservedFact? || c.Inferred? || (mode.EvidenceRequired? && !c.InsufficientEvidence?)
  }

  /** What is asked of one claim, apart from its identifier being new. */
  ghost predicate ClaimOk(claim: Claim, response: Response, manifest: Manifest, mode: EvidenceMode) {
    Trim(claim.claimId) != "" && ClaimBodyOk(claim, response, manifest, mode)
  }

  ghost predicate ClaimBodyOk(claim: Claim, response: Response, manifest: Manifest, mode: EvidenceMode) {
    && (NeedsEvidence(claim.classification, mode) ==> claim.evidence != [])
    && (claim.classification.GeneralKnowledge? ==> !manifest.scope.ReferencesOnly? && response.usedGeneralKnowledge)
    && forall i :: 0 <= i < |claim.evidence| ==> CitationOk(claim.evidence[i], manifest)
  }

  ghost predicate EnvelopeOk(response: Response, manifest: Manifest, mode: EvidenceMode) {
    && response.schemaVersion == GROUNDING_SCHEMA_VERSION
    && !(manifest.scope.ReferencesOnly? && response.usedGeneralKnowledge)
    && !(mode.EvidenceRequired? && Trim(response.answer) != "" && response.claims == [])
  }

  function Ids(claims: seq<Claim>): (ids: seq<string>)
    ensures |ids| == |claims|
  {
    Map((c: Claim) => c.claimId, claims)
  }

  ghost predicate ResponseOk(response: Response, manifest: Manifest, mode: EvidenceMode) {
    && EnvelopeOk(response, manifest, mode)
    && NoDuplicates(Ids(response.claims))
    && forall i :: 0 <= i < |response.claims| ==> ClaimOk(response.claims[i], response, manifest, mode)
  }

  datatype EvidenceError =
    | UnsupportedSchema | ForbiddenGeneralKnowledge | NoClaims | BadClaimId | NoEvidence(claim: string)
    | ClaimUsesGeneralKnowledge(claim: string) | UndeclaredGeneralKnowledge(claim: string)
    | PathNotInjected(claim: string) | StaleHash(claim: string) | RangeNotInjected(claim: string)
    | OtherWorkspace(claim: string)

  datatype Report = Report(valid: bool, claimsChecked: nat, citationsChecked: nat, errors: seq<EvidenceError>)

  // ---- Which errors are reported ----

  /** What is wrong with one citation. */
  ghost predicate CitationError(e: EvidenceError, c: Citation, claim: string, manifest: Manifest) {
    var entry := EntryFor(manifest.entries, c.path);
    match e
    case PathNotInjected(id) => id == claim && entry.None?
    case StaleHash(id) => id == claim && entry.Some? && c.contentHash != entry.value.injectedHash
    case RangeNotInjected(id) => id == claim && entry.Some? && !CoveredBy(c, entry.value.ranges)
    case OtherWorkspace(id) => id == claim && entry.Some? && entry.value.workspaceId != manifest.workspaceId
    case _ => false
  }

  /** What is wrong with one claim, its identifier aside. */
  ghost predicate ClaimError(e: EvidenceError, claim: Claim, response: Response, manifest: Manifest,
                             mode: EvidenceMode) {
    match e
    case NoEvidence(id) =>
      && id == claim.claimId && claim.evidence == []
      && (claim.classification in {ObservedFact, Inferred}
          || (mode.EvidenceRequired? && claim.classification != InsufficientEvidence))
    case ClaimUsesGeneralKnowledge(id) =>
      id == claim.claimId && claim.classification == GeneralKnowledge && manifest.scope == ReferencesOnly
    case UndeclaredGeneralKnowledge(id) =>
      id == claim.claimId && claim.classification == GeneralKnowledge && !response.usedGeneralKnowledge
    case _ => exists i :: 0 <= i < |claim.evidence| && CitationError(e, claim.evidence[i], claim.claimId, manifest)
  }

  ghost predicate EnvelopeError(e: EvidenceError, response: Response, manifest: Manifest, mode: EvidenceMode) {
    match e
    case UnsupportedSchema => response.schemaVersion != GROUNDING_SCHEMA_VERSION
    case ForbiddenGeneralKnowledge => manifest.scope == ReferencesOnly && response.usedGeneralKnowledge
    case NoClaims => mode.EvidenceRequired? && Trim(response.answer) != "" && response.claims == []
    case _ => false
  }

  /** The identifier is blank, or that of an earlier claim. */
  ghost predicate BadIdAt(claims: seq<Claim>, i: nat)
    requires i < |claims|
  {
    Trim(claims[i].claimId) == "" || exists j :: 0 <= j < i && claims[j].claimId == claims[i].claimId
  }

  /** What the first `n` claims are reported for. */
  ghost predicate ErrorUpTo(e: EvidenceError, n: nat, response: Response, manifest: Manifest, mode: EvidenceMode)
    requires n <= |response.claims|
  {
    || EnvelopeError(e, response, manifest, mode)
    || (e == BadClaimId && exists i :: 0 <= i < n && BadIdAt(response.claims, i))
    || exists i :: 0 <= i < n && ClaimError(e, response.claims[i], response, manifest, mode)
  }

  function CountCitations(claims: seq<Claim>): nat {
    if claims == [] then 0 else CountCitations(claims[..|claims| - 1]) + |claims[|claims| - 1].evidence|
  }

  method CheckCitation(c: Citation, claim: string, manifest: Manifest) returns (errors: seq<EvidenceError>)
    ensures errors == [] <==> CitationOk(c, manifest)
    ensures forall e :: e in errors <==> CitationError(e, c, claim, manifest)
  {
    hide CoveredBy, EntryFor;
    errors := [];
    var entry := EntryFor(manifest.entries, c.path);
    if entry.None? {
      return [PathNotInjected(claim)];
    }
    if c.contentHash != entry.value.injectedHash {
      errors := errors + [StaleHash(claim)];
    }
    if !CoveredBy(c, entry.value.ranges) {
      errors := errors + [RangeNotInjected(claim)];
    }
    if entry.value.workspaceId != manifest.workspaceId {
      errors := errors + [OtherWorkspace(claim)];
    }
  }

  method CheckCitations(claim: Claim, manifest: Manifest) returns (errors: seq<EvidenceError>)
    ensures errors == [] <==> forall i :: 0 <= i < |claim.evidence| ==> CitationOk(claim.evidence[i], manifest)
    ensures forall e :: e in errors <==>
      exists i :: 0 <= i < |claim.evidence| && CitationError(e, claim.evidence[i], claim.claimId, manifest)
  {
    hide CitationOk, CitationError;
    errors := [];
    for i := 0 to |claim.evidence|
      invariant errors == [] <==> forall k :: 0 <= k < i ==> CitationOk(claim.evidence[k], manifest)
      invariant forall e :: e in errors <==>
        exists k :: 0 <= k < i && CitationError(e, claim.evidence[k], claim.claimId, manifest)
    {
      var found := CheckCitation(claim.evidence[i], claim.claimId, manifest);
      errors := errors + found;
    }
  }

  method CheckClaim(claim: Claim, response: Response, manifest: Manifest, mode: EvidenceMode)
      returns (errors: seq<EvidenceError>)
    ensures errors == [] <==> ClaimBodyOk(claim, response, manifest, mode)
    ensures forall e :: e in errors <==> ClaimError(e, claim, response, manifest, mode)
  {
    hide CitationOk;
    errors := [];
    var needed := claim.classification.ObservedFact? || claim.classification.Inferred?
                  || (mode.EvidenceRequired? && !claim.classification.InsufficientEvidence?);
    if needed && claim.evidence == [] {
      errors := errors + [NoEvidence(claim.claimId)];
    }
    if claim.classification.GeneralKnowledge? && manifest.scope.ReferencesOnly? {
      errors := errors + [ClaimUsesGeneralKnowledge(claim.claimId)];
    }
    if claim.classification.GeneralKnowledge? && !response.usedGeneralKnowledge {
      errors := errors + [UndeclaredGeneralKnowledge(claim.claimId)];
    }
    var found := CheckCitations(claim, manifest);
    errors := errors + found;
  }

  /** The checks on the response as a whole. */
  method CheckEnvelope(response: Response, manifest: Manifest, mode: EvidenceMode) returns (errors: seq<EvidenceError>)
    ensures errors == [] <==> EnvelopeOk(response, manifest, mode)
    ensures forall e :: e in errors <==> EnvelopeError(e, response, manifest, mode)
  {
    hide Trim;
    errors := [];
    if response.schemaVersion != GROUNDING_SCHEMA_VERSION {
      errors := errors + [UnsupportedSchema];
    }
    if manifest.scope.ReferencesOnly? && response.usedGeneralKnowledge {
      errors := errors + [ForbiddenGeneralKnowledge];
    }
    if mode.EvidenceRequired? && Trim(response.answer) != "" && response.claims == [] {
      errors := errors + [NoClaims];
    }
  }

  lemma NothingChecked(response: Response, manifest: Manifest, mode: EvidenceMode)
    ensures forall e :: ErrorUpTo(e, 0, response, manifest, mode) <==> EnvelopeError(e, response, manifest, mode)
  {
    hide EnvelopeError, ClaimError;
  }

  lemma OneMoreChecked(e: EvidenceError, i: nat, response: Response, manifest: Manifest, mode: EvidenceMode)
    requires i < |response.claims|
    ensures ErrorUpTo(e, i + 1, response, manifest, mode) <==>
      || ErrorUpTo(e, i, response, manifest, mode)
      || (e == BadClaimId && BadIdAt(response.claims, i))
      || ClaimError(e, response.claims[i], response, manifest, mode)
  {
    hide EnvelopeError, ClaimError, BadIdAt;
    var claims := response.claims;
    assert (exists k :: 0 <= k < i + 1 && BadIdAt(claims, k))
      <==> (exists k :: 0 <= k < i && BadIdAt(claims, k)) || BadIdAt(claims, i);
    assert (exists k :: 0 <= k < i + 1 && ClaimError(e, claims[k], response, manifest, mode))
      <==> (exists k :: 0 <= k < i && ClaimError(e, claims[k], response, manifest, mode))
           || ClaimError(e, claims[i], response, manifest, mode);
  }

  lemma SeenBefore(claims: seq<Claim>, i: nat, seen: set<string>)
    requires i < |claims| && seen == (set id | id in Ids(claims[..i]))
    ensures claims[i].claimId in seen <==> exists j :: 0 <= j < i && claims[j].claimId == claims[i].claimId
    ensures BadIdAt(claims, i) <==> Trim(claims[i].claimId) == "" || claims[i].claimId in seen
  {
    hide Trim;
    if claims[i].claimId in seen {
      var j :| 0 <= j < i && Ids(claims[..i])[j] == claims[i].claimId;
      assert claims[j].claimId == claims[i].claimId;
    }
    forall j | 0 <= j < i && claims[j].claimId == claims[i].claimId ensures claims[i].claimId in seen {
      assert Ids(claims[..i])[j] == claims[j].claimId;
    }
  }

  lemma OneMoreCounted(claims: seq<Claim>, i: nat)
    requires i < |claims|
    ensures CountCitations(claims[..i + 1]) == CountCitations(claims[..i]) + |claims[i].evidence|
    ensures CountCitations(claims[..0]) == 0
  {
    assert claims[..i + 1][..i] == claims[..i];
  }

  /**
   `validate_evidence`: every check runs, all that failed are reported, and the report is valid exactly
   when none did.
   */
  method ValidateEvidence(response: Response, manifest: Manifest, mode: EvidenceMode) returns (report: Report)
    ensures report.valid <==> ResponseOk(response, manifest, mode)
    ensures report.valid <==> report.errors == []
    ensures report.claimsChecked == |response.claims| && report.citationsChecked == CountCitations(response.claims)
    ensures forall e :: e in report.errors <==> ErrorUpTo(e, |response.claims|, response, manifest, mode)
  {
    hide ClaimBodyOk, Trim, NoDuplicates, Ids, ClaimError, EnvelopeError, EnvelopeOk, ErrorUpTo, BadIdAt,
         CountCitations;
    NothingChecked(response, manifest, mode);
    var errors := CheckEnvelope(response, manifest, mode);
    ghost var envelope := errors == [];
    var claims := response.claims;
    var seen: set<string> := {};
    var checked: nat := 0;
    NoIds();
    for i := 0 to |claims|
      invariant seen == (set id | id in Ids(claims[..i]))
      invariant errors == [] <==>
        envelope && NoDuplicates(Ids(claims[..i]))
        && forall k :: 0 <= k < i ==> ClaimOk(claims[k], response, manifest, mode)
      invariant forall e :: e in errors <==> ErrorUpTo(e, i, response, manifest, mode)
      invariant checked == CountCitations(claims[..i])
    {
      var claim := claims[i];
      IdsSnoc(claims, i);
      SeenBefore(claims, i, seen);
      ghost var before := errors;
      OneMoreCounted(claims, i);
      if Trim(claim.claimId) == "" || claim.claimId in seen {
        errors := errors + [BadClaimId];
      }
      var found := CheckClaim(claim, response, manifest, mode);
      errors := errors + found;
      forall e ensures e in errors <==> ErrorUpTo(e, i + 1, response, manifest, mode) {
        OneMoreChecked(e, i, response, manifest, mode);
        assert e in errors <==> e in before || (e == BadClaimId && BadIdAt(claims, i)) || e in found;
      }
      seen := seen + {claim.claimId};
      checked := checked + |claim.evidence|;
    }
    assert claims[..|claims|] == claims;
    return Report(errors == [], |claims|, checked, errors);
  }

  lemma NoIds()
    ensures NoDuplicates(Ids([])) && Ids([]) == [] && CountCitations([]) == 0
  {
  }

  lemma IdsSnoc(claims: seq<Claim>, i: nat)
    requires i < |claims|
    ensures claims[..i + 1] == claims[..i] + [claims[i]]
    ensures Ids(claims[..i + 1]) == Ids(claims[..i]) + [claims[i].claimId]
    ensures NoDuplicates(Ids(claims[..i + 1]))
      <==> NoDuplicates(Ids(claims[..i])) && claims[i].claimId !in Ids(claims[..i])
  {
    assert Ids(claims[..i + 1]) == Ids(claims[..i]) + [claims[i].claimId];
    NoDuplicatesSnoc(Ids(claims[..i]), claims[i].claimId);
  }
}
