/** Edit plans, their limits, and the file snapshots a validated plan comes with. */
module EditSchema {
  import opened Wrappers

  const U64_MAX: nat := 0xFFFF_FFFF_FFFF_FFFF
  const U32_MAX: nat := 0xFFFF_FFFF

  /** `u64::saturating_add` on operands that fit. */
  function SaturatingAdd(a: nat, b: nat): (sum: nat)
    ensures sum <= a + b && (a + b <= U64_MAX ==> sum == a + b) && (a + b > U64_MAX ==> sum == U64_MAX)
  {
    if a + b > U64_MAX then U64_MAX else a + b
  }

  datatype LineEnding = NoEnding | Lf | Crlf

  datatype EditPlanLimits = EditPlanLimits(
    maxFiles: nat,
    maxCreatedFiles: nat,
    maxFileBytes: nat,
    maxProposalBytes: nat,
    maxHunks: nat,
    maxAddedLines: nat,
    maxDeletedLines: nat,
    maxChangedLines: nat,
    globalTimeoutSeconds: nat)

  const HARD_MAXIMA := EditPlanLimits(5, 1, 512 * 1024, 2 * 1024 * 1024, 64, 1500, 1500, 2000, 15 * 60)

  predicate BoundedByHardMaxima(l: EditPlanLimits) {
    && 0 < l.maxFiles <= HARD_MAXIMA.maxFiles
    && l.maxCreatedFiles <= HARD_MAXIMA.maxCreatedFiles
    && 0 < l.maxFileBytes <= HARD_MAXIMA.maxFileBytes
    && 0 < l.maxProposalBytes <= HARD_MAXIMA.maxProposalBytes
    && 0 < l.maxHunks <= HARD_MAXIMA.maxHunks
    && l.maxAddedLines <= HARD_MAXIMA.maxAddedLines
    && l.maxDeletedLines <= HARD_MAXIMA.maxDeletedLines
    && l.maxChangedLines <= HARD_MAXIMA.maxChangedLines
    && 0 < l.globalTimeoutSeconds <= HARD_MAXIMA.globalTimeoutSeconds
  }

  predicate LimitsExceed(left: EditPlanLimits, right: EditPlanLimits) {
    || left.maxFiles > right.maxFiles
    || left.maxCreatedFiles > right.maxCreatedFiles
    || left.maxFileBytes > right.maxFileBytes
    || left.maxProposalBytes > right.maxProposalBytes
    || left.maxHunks > right.maxHunks
    || left.maxAddedLines > right.maxAddedLines
    || left.maxDeletedLines > right.maxDeletedLines
    || left.maxChangedLines > right.maxChangedLines
    || left.globalTimeoutSeconds > right.globalTimeoutSeconds
  }

  /** No limit is above the other one of its kind. */
  ghost predicate LimitsWithin(left: EditPlanLimits, right: EditPlanLimits) {
    && left.maxFiles <= right.maxFiles && left.maxCreatedFiles <= right.maxCreatedFiles
    && left.maxFileBytes <= right.maxFileBytes && left.maxProposalBytes <= right.maxProposalBytes
    && left.maxHunks <= right.maxHunks && left.maxAddedLines <= right.maxAddedLines
    && left.maxDeletedLines <= right.maxDeletedLines && left.maxChangedLines <= right.maxChangedLines
    && left.globalTimeoutSeconds <= right.globalTimeoutSeconds
  }

  /** At most five files, one of them new, of half a megabyte each and two together, with so many hunks and lines. */
  ghost predicate WithinHardMaxima(l: EditPlanLimits) {
    && 0 < l.maxFiles <= 5 && l.maxCreatedFiles <= 1
    && 0 < l.maxFileBytes <= 524288 && 0 < l.maxProposalBytes <= 2097152
    && 0 < l.maxHunks <= 64 && l.maxAddedLines <= 1500 && l.maxDeletedLines <= 1500 && l.maxChangedLines <= 2000
    && 0 < l.globalTimeoutSeconds <= 900
  }

  lemma LimitsExceedIff(left: EditPlanLimits, right: EditPlanLimits)
    ensures LimitsExceed(left, right) <==> !LimitsWithin(left, right)
  {
  }

  lemma BoundedIff(l: EditPlanLimits)
    ensures BoundedByHardMaxima(l) <==> WithinHardMaxima(l)
  {
  }

  datatype ByteRange = ByteRange(start: nat, end: nat)

  datatype EditOperation =
    | Modify(path: string, expectedFileHash: string, lineEnding: LineEnding, range: ByteRange,
             expectedOld: string, replacement: string)
    | Create(path: string, extension: string, lineEnding: LineEnding, content: string,
             expectedAbsent: bool, declaredSize: nat)

  datatype EditValidationKind = ReparseJava | BuildOffline | TestOffline

  datatype EditPlan = EditPlan(
    schemaVersion: nat,
    planId: string,
    requestId: string,
    workspaceId: string,
    workspaceRootHash: string,
    profile: string,
    provider: string,
    model: string,
    baseHead: string,
    workingTreeDigest: string,
    operations: seq<EditOperation>,
    validations: seq<EditValidationKind>,
    limits: EditPlanLimits,
    expiresAt: nat)

  datatype FileStatus = Modified | Created

  datatype FileSnapshot = FileSnapshot(
    path: string,
    status: FileStatus,
    baseContent: Option<string>,
    baseHash: Option<string>,
    proposedContent: string,
    proposedHash: string)

  datatype ValidatedEditPlan = ValidatedEditPlan(plan: EditPlan, files: seq<FileSnapshot>)

  const ALLOWED_EDIT_EXTENSIONS :=
    ["java", "xml", "yml", "yaml", "json", "toml", "properties", "gradle", "md", "txt"]
}
