/**
 The byte stream behind context and prompt fingerprints: each field as its name and value, each of
 these preceded by its length. Streams are equal exactly when the fields are.
 */
module Fingerprint {
  import opened Wrappers
  import opened Text
  import opened Utf8
  import opened Ordering
  import opened SnapshotRange
  import opened Evidence

  datatype Field = Field(name: string, value: string)

  const WORD := 0x1_0000_0000_0000_0000

  /** `u64::to_le_bytes`, over the given number of bytes. */
  function LittleEndian(n: nat, width: nat): (b: Bytes)
    ensures |b| == width
  {
    if width == 0 then [] else [(n % 256) as byte] + LittleEndian(n / 256, width - 1)
  }

  /** The `i`-th byte is the `i`-th digit to the base 256, lowest first. */
  lemma {:induction false} LittleEndianAt(n: nat, width: nat, i: nat)
    requires i < width
    ensures Power256(i) > 0 && LittleEndian(n, width)[i] as nat == n / Power256(i) % 256
  {
    if i == 0 {
      assert n / 1 == n;
    } else {
      LittleEndianAt(n / 256, width - 1, i - 1);
      DivideTwice(n, Power256(i - 1));
    }
  }

  lemma DivideTwice(n: nat, p: nat)
    requires p > 0
    ensures n / 256 / p == n / (256 * p)
  {
    var q := n / 256;
    var a := q / p;
    assert n == 256 * q + n % 256 && q == p * a + q % p;
    assert n == (256 * p) * a + (256 * (q % p) + n % 256);
    assert 0 <= 256 * (q % p) + n % 256 < 256 * p;
    QuotientIs(n, 256 * p, a, 256 * (q % p) + n % 256);
  }

  lemma QuotientIs(n: nat, d: nat, a: nat, rest: nat)
    requires d > 0 && n == d * a + rest && rest < d
    ensures n / d == a
  {
    var b := n / d;
    assert n == d * b + n % d;
    if a < b {
      ProductGrows(d, a, b);
    } else if b < a {
      ProductGrows(d, b, a);
    }
  }

  lemma {:induction false} ProductGrows(d: nat, a: nat, b: nat)
    requires a < b
    ensures d * b >= d * a + d
  {
    if a + 1 < b {
      ProductGrows(d, a, b - 1);
    }
    assert d * b == d * (b - 1) + d;
  }

  function Power256(width: nat): nat {
    if width == 0 then 1 else 256 * Power256(width - 1)
  }

  lemma {:induction false} LittleEndianInjective(m: nat, n: nat, width: nat)
    requires m < Power256(width) && n < Power256(width) && LittleEndian(m, width) == LittleEndian(n, width)
    ensures m == n
    decreases width
  {
    if width > 0 {
      var a, b := LittleEndian(m, width), LittleEndian(n, width);
      assert a[0] == (m % 256) as byte && b[0] == (n % 256) as byte;
      assert a[1..] == LittleEndian(m / 256, width - 1) && b[1..] == LittleEndian(n / 256, width - 1);
      LittleEndianInjective(m / 256, n / 256, width - 1);
    }
  }

  lemma EightBytes()
    ensures Power256(8) == WORD
  {
    assert Power256(1) == 256 && Power256(2) == 0x1_0000;
    assert Power256(4) == 0x1_0000_0000;
  }

  /** A length and then that many bytes. */
  function Prefixed(s: string): Bytes {
    LittleEndian(ByteLen(s), 8) + Encode(s)
  }

  /** `hash_field`. */
  function FieldBytes(f: Field): (b: Bytes)
    ensures b != []
  {
    assert |LittleEndian(ByteLen(f.name), 8)| == 8;
    Prefixed(f.name) + Prefixed(f.value)
  }

  /** The name's length in eight bytes, the name, the value's length in eight bytes, the value. */
  lemma FieldLayout(f: Field)
    ensures var name, value, b := Encode(f.name), Encode(f.value), FieldBytes(f);
      && |b| == 16 + |name| + |value|
      && b[..8] == LittleEndian(|name|, 8) && b[8..8 + |name|] == name
      && b[8 + |name|..16 + |name|] == LittleEndian(|value|, 8) && b[16 + |name|..] == value
  {
    hide Encode, LittleEndian;
  }

  function Stream(fields: seq<Field>): Bytes {
    if fields == [] then [] else FieldBytes(fields[0]) + Stream(fields[1..])
  }

  /** Lengths are machine words. */
  ghost predicate Fits(fields: seq<Field>) {
    forall f :: f in fields ==> ByteLen(f.name) < WORD && ByteLen(f.value) < WORD
  }

  /** What a length-prefixed string is followed by does not matter for reading it back. */
  lemma PrefixedSplits(s: string, x: Bytes, t: string, y: Bytes)
    requires ByteLen(s) < WORD && ByteLen(t) < WORD && Prefixed(s) + x == Prefixed(t) + y
    ensures s == t && x == y
  {
    hide Encode, LittleEndian;
    var a, b := LittleEndian(ByteLen(s), 8), LittleEndian(ByteLen(t), 8);
    var u, v := Prefixed(s) + x, Prefixed(t) + y;
    assert u[..8] == a && v[..8] == b;
    EightBytes();
    LittleEndianInjective(ByteLen(s), ByteLen(t), 8);
    var n := ByteLen(s);
    assert u[8..8 + n] == Encode(s) && v[8..8 + n] == Encode(t);
    assert u[8 + n..] == x && v[8 + n..] == y;
    EncodeInjective(s, t);
  }

  lemma FieldSplits(f: Field, x: Bytes, g: Field, y: Bytes)
    requires Fits([f, g]) && FieldBytes(f) + x == FieldBytes(g) + y
    ensures f == g && x == y
  {
    hide Prefixed;
    assert f in [f, g] && g in [f, g];
    assert FieldBytes(f) + x == Prefixed(f.name) + (Prefixed(f.value) + x);
    assert FieldBytes(g) + y == Prefixed(g.name) + (Prefixed(g.value) + y);
    PrefixedSplits(f.name, Prefixed(f.value) + x, g.name, Prefixed(g.value) + y);
    PrefixedSplits(f.value, x, g.value, y);
  }

  /** The stream is uniquely decodable. */
  lemma {:induction false} StreamInjective(a: seq<Field>, b: seq<Field>)
    requires Fits(a) && Fits(b)
    ensures Stream(a) == Stream(b) <==> a == b
    decreases |a|
  {
    hide FieldBytes, ByteLen;
    if Stream(a) == Stream(b) {
      EmptyStream(a);
      EmptyStream(b);
      if a != [] {
        FieldSplits(a[0], Stream(a[1..]), b[0], Stream(b[1..]));
        StreamInjective(a[1..], b[1..]);
        assert a == [a[0]] + a[1..] && b == [b[0]] + b[1..];
      }
    }
  }

  lemma EmptyStream(a: seq<Field>)
    ensures Stream(a) == [] <==> a == []
  {
  }

  // ---- The fields of a context manifest ----

  const PROMPT_VERSION := "opticcode-grounding-prompt-v2"

  function ScopeName(scope: ContextScope): string {
    match scope
    case Automatic => "automatic"
    case ReferencesPreferred => "references_preferred"
    case ReferencesOnly => "references_only"
  }

  function RangeText(r: ManifestRange): string {
    Decimal(r.startLine) + ":" + (Decimal(r.endLine) + ":" + (Decimal(r.startByte) + ":" + Decimal(r.endByte)))
  }

  function SnapshotFields(s: Snapshot): (fields: seq<Field>)
    ensures |fields| == 6
  {
    [Field("reference_id", s.referenceId), Field("path", s.path), Field("file_hash", s.fileHash),
     Field("injected_hash", s.injectedHash), Field("range", RangeText(s.range)), Field("content", s.content)]
  }

  function AllSnapshotFields(snapshots: seq<Snapshot>): seq<Field> {
    if snapshots == [] then [] else SnapshotFields(snapshots[0]) + AllSnapshotFields(snapshots[1..])
  }

  function HeaderFields(scope: ContextScope, workspaceId: string, profile: string): (fields: seq<Field>)
    ensures |fields| == 5
  {
    [Field("schema", "1"), Field("scope", ScopeName(scope)), Field("workspace", workspaceId),
     Field("prompt_version", PROMPT_VERSION), Field("profile", profile)]
  }

  function ManifestFields(scope: ContextScope, workspaceId: string, profile: string,
                          snapshots: seq<Snapshot>): seq<Field> {
    HeaderFields(scope, workspaceId, profile) + AllSnapshotFields(snapshots)
  }

  ghost predicate IsField(fields: seq<Field>, i: nat, name: string, value: string) {
    i < |fields| && fields[i].name == name && fields[i].value == value
  }

  /** Five fields about the manifest, and six more for each snapshot. */
  lemma FieldsOfManifest(scope: ContextScope, workspaceId: string, profile: string, snapshots: seq<Snapshot>)
    ensures var fields := ManifestFields(scope, workspaceId, profile, snapshots);
      && |fields| == 5 + 6 * |snapshots|
      && IsField(fields, 0, "schema", "1")
      && IsField(fields, 1, "scope", if scope == Automatic then "automatic"
                                     else if scope == ReferencesOnly then "references_only" else "references_preferred")
      && IsField(fields, 2, "workspace", workspaceId)
      && IsField(fields, 3, "prompt_version", "opticcode-grounding-prompt-v2")
      && IsField(fields, 4, "profile", profile)
  {
    FieldCount(snapshots);
    hide AllSnapshotFields;
  }

  /** Those of a snapshot, each under its own name. */
  lemma FieldsOfSnapshot(scope: ContextScope, workspaceId: string, profile: string, snapshots: seq<Snapshot>, i: nat)
    requires i < |snapshots|
    ensures var fields := ManifestFields(scope, workspaceId, profile, snapshots);
      var s, at := snapshots[i], 5 + 6 * i;
      && IsField(fields, at, "reference_id", s.referenceId) && IsField(fields, at + 1, "path", s.path)
      && IsField(fields, at + 2, "file_hash", s.fileHash)
      && IsField(fields, at + 3, "injected_hash", s.injectedHash)
      && IsField(fields, at + 4, "range",
                 Decimal(s.range.startLine) + ":" + Decimal(s.range.endLine) + ":"
                 + Decimal(s.range.startByte) + ":" + Decimal(s.range.endByte))
      && IsField(fields, at + 5, "content", s.content)
  {
    var six := SnapshotFields(snapshots[i]);
    RangeParts(snapshots[i].range);
    hide Decimal, AllSnapshotFields, RangeText, HeaderFields;
    FieldInPlace(scope, workspaceId, profile, snapshots, i, 0);
    FieldInPlace(scope, workspaceId, profile, snapshots, i, 1);
    FieldInPlace(scope, workspaceId, profile, snapshots, i, 2);
    FieldInPlace(scope, workspaceId, profile, snapshots, i, 3);
    FieldInPlace(scope, workspaceId, profile, snapshots, i, 4);
    FieldInPlace(scope, workspaceId, profile, snapshots, i, 5);
    hide ManifestFields;
  }

  lemma FieldInPlace(scope: ContextScope, workspaceId: string, profile: string, snapshots: seq<Snapshot>,
                     i: nat, k: nat)
    requires i < |snapshots| && k < 6
    ensures var fields := ManifestFields(scope, workspaceId, profile, snapshots);
      5 + 6 * i + k < |fields| && fields[5 + 6 * i + k] == SnapshotFields(snapshots[i])[k]
  {
    hide SnapshotFields, AllSnapshotFields, HeaderFields;
    SixFields(snapshots, i, k);
  }

  lemma {:induction false} SixFields(snapshots: seq<Snapshot>, i: nat, k: nat)
    requires i < |snapshots| && k < 6
    ensures 6 * i + k < |AllSnapshotFields(snapshots)|
    ensures AllSnapshotFields(snapshots)[6 * i + k] == SnapshotFields(snapshots[i])[k]
  {
    hide SnapshotFields;
    FieldCount(snapshots);
    if i > 0 {
      SixFields(snapshots[1..], i - 1, k);
    }
  }

  lemma RangeParts(r: ManifestRange)
    ensures RangeText(r) == Decimal(r.startLine) + ":" + Decimal(r.endLine) + ":" + Decimal(r.startByte) + ":"
                            + Decimal(r.endByte)
  {
    hide Decimal;
  }

  /** The fingerprint of a manifest, as the loop over the snapshots feeds the hasher. */
  method ManifestStream(scope: ContextScope, workspaceId: string, profile: string, snapshots: seq<Snapshot>)
      returns (b: Bytes)
    ensures b == Stream(ManifestFields(scope, workspaceId, profile, snapshots))
  {
    hide FieldBytes, SnapshotFields, HeaderFields;
    b := Stream(HeaderFields(scope, workspaceId, profile));
    ghost var fields := HeaderFields(scope, workspaceId, profile);
    for i := 0 to |snapshots|
      invariant fields + AllSnapshotFields(snapshots[i..]) == ManifestFields(scope, workspaceId, profile, snapshots)
      invariant b == Stream(fields)
    {
      StreamConcat(fields, SnapshotFields(snapshots[i]));
      b := b + Stream(SnapshotFields(snapshots[i]));
      assert snapshots[i..][1..] == snapshots[i + 1..];
      assert fields + (SnapshotFields(snapshots[i]) + AllSnapshotFields(snapshots[i + 1..]))
        == (fields + SnapshotFields(snapshots[i])) + AllSnapshotFields(snapshots[i + 1..]);
      fields := fields + SnapshotFields(snapshots[i]);
    }
    assert fields + AllSnapshotFields(snapshots[|snapshots|..]) == fields;
  }

  lemma {:induction false} StreamConcat(a: seq<Field>, b: seq<Field>)
    ensures Stream(a + b) == Stream(a) + Stream(b)
  {
    hide FieldBytes;
    if a == [] {
      assert a + b == b;
    } else {
      assert (a + b)[1..] == a[1..] + b;
      StreamConcat(a[1..], b);
    }
  }

  lemma NoColon(n: nat)
    ensures ':' !in Decimal(n)
  {
    hide Decimal;
    assert AllDigits(Decimal(n));
  }

  lemma ColonApart(a: string, x: string, b: string, y: string)
    requires |a| < |b| && ':' !in b
    ensures a + ":" + x != b + ":" + y
  {
    assert (a + ":" + x)[|a|] == ':' && (b + ":" + y)[|a|] == b[|a|];
  }

  lemma ColonSplits(a: string, x: string, b: string, y: string)
    requires ':' !in a && ':' !in b && a + ":" + x == b + ":" + y
    ensures a == b && x == y
  {
    var u, v := a + ":" + x, b + ":" + y;
    if |a| < |b| {
      ColonApart(a, x, b, y);
    } else if |b| < |a| {
      ColonApart(b, y, a, x);
    }
    assert u[..|a|] == a && v[..|b|] == b && u[|a| + 1..] == x && v[|b| + 1..] == y;
  }

  lemma RangeTextInjective(r: ManifestRange, q: ManifestRange)
    requires RangeText(r) == RangeText(q)
    ensures r == q
  {
    hide Decimal;
    NoColon(r.startLine);
    NoColon(q.startLine);
    ColonSplits(Decimal(r.startLine), Decimal(r.endLine) + ":" + (Decimal(r.startByte) + ":" + Decimal(r.endByte)),
                Decimal(q.startLine), Decimal(q.endLine) + ":" + (Decimal(q.startByte) + ":" + Decimal(q.endByte)));
    NoColon(r.endLine);
    NoColon(q.endLine);
    ColonSplits(Decimal(r.endLine), Decimal(r.startByte) + ":" + Decimal(r.endByte),
                Decimal(q.endLine), Decimal(q.startByte) + ":" + Decimal(q.endByte));
    NoColon(r.startByte);
    NoColon(q.startByte);
    ColonSplits(Decimal(r.startByte), Decimal(r.endByte), Decimal(q.startByte), Decimal(q.endByte));
    DecimalInjective(r.startLine, q.startLine);
    DecimalInjective(r.endLine, q.endLine);
    DecimalInjective(r.startByte, q.startByte);
    DecimalInjective(r.endByte, q.endByte);
  }

  /** What the fingerprint sees of a snapshot. */
  ghost predicate SameHashedFields(s: Snapshot, t: Snapshot) {
    && s.referenceId == t.referenceId && s.path == t.path && s.fileHash == t.fileHash
    && s.injectedHash == t.injectedHash && s.range == t.range && s.content == t.content
  }

  lemma SnapshotFieldsIff(s: Snapshot, t: Snapshot)
    ensures SnapshotFields(s) == SnapshotFields(t) <==> SameHashedFields(s, t)
  {
    hide RangeText;
    if SnapshotFields(s) == SnapshotFields(t) {
      var a, b := SnapshotFields(s), SnapshotFields(t);
      assert a[0] == b[0] && a[1] == b[1] && a[2] == b[2] && a[3] == b[3] && a[4] == b[4] && a[5] == b[5];
      RangeTextInjective(s.range, t.range);
    }
  }

  ghost predicate SameSnapshots(a: seq<Snapshot>, b: seq<Snapshot>) {
    |a| == |b| && forall i :: 0 <= i < |a| ==> SameHashedFields(a[i], b[i])
  }

  lemma {:induction false} AllSnapshotFieldsIff(a: seq<Snapshot>, b: seq<Snapshot>)
    ensures AllSnapshotFields(a) == AllSnapshotFields(b) <==> SameSnapshots(a, b)
    decreases |a|
  {
    hide SnapshotFields, SameHashedFields;
    FieldCount(a);
    FieldCount(b);
    if a != [] && b != [] {
      SnapshotFieldsIff(a[0], b[0]);
      AllSnapshotFieldsIff(a[1..], b[1..]);
      var x, y := AllSnapshotFields(a), AllSnapshotFields(b);
      assert x[..6] == SnapshotFields(a[0]) && y[..6] == SnapshotFields(b[0]);
      assert x[6..] == AllSnapshotFields(a[1..]) && y[6..] == AllSnapshotFields(b[1..]);
      SameSnapshotsUnfold(a, b);
    }
  }

  lemma SameSnapshotsUnfold(a: seq<Snapshot>, b: seq<Snapshot>)
    requires a != [] && b != []
    ensures SameSnapshots(a, b) <==> SameHashedFields(a[0], b[0]) && SameSnapshots(a[1..], b[1..])
  {
    hide SameHashedFields;
    if SameHashedFields(a[0], b[0]) && SameSnapshots(a[1..], b[1..]) {
      forall i | 0 <= i < |a| ensures SameHashedFields(a[i], b[i]) {
        if i > 0 {
          assert a[i] == a[1..][i - 1] && b[i] == b[1..][i - 1];
        }
      }
    }
  }

  lemma {:induction false} FieldCount(a: seq<Snapshot>)
    ensures |AllSnapshotFields(a)| == 6 * |a|
  {
    hide SnapshotFields;
    if a != [] {
      FieldCount(a[1..]);
    }
  }

  lemma HeaderIff(scope: ContextScope, workspaceId: string, profile: string, scope': ContextScope, workspaceId': string,
                  profile': string)
    ensures HeaderFields(scope, workspaceId, profile) == HeaderFields(scope', workspaceId', profile')
      <==> scope == scope' && workspaceId == workspaceId' && profile == profile'
  {
    ScopeNamesDiffer(scope, scope');
    var a, b := HeaderFields(scope, workspaceId, profile), HeaderFields(scope', workspaceId', profile');
    hide ScopeName;
    if a == b {
      assert a[1] == b[1] && a[2] == b[2] && a[4] == b[4];
    }
  }

  lemma ScopeNamesDiffer(scope: ContextScope, scope': ContextScope)
    ensures ScopeName(scope) == ScopeName(scope') <==> scope == scope'
  {
    assert |"automatic"| == 9 && |"references_preferred"| == 20 && |"references_only"| == 15;
  }

  /**
   Two manifests feed the hash the same bytes exactly when scope, workspace and profile are equal and
   the snapshots are, one by one, in everything that is hashed of them.
   */
  lemma ManifestStreamIff(scope: ContextScope, workspaceId: string, profile: string, snapshots: seq<Snapshot>,
                          scope': ContextScope, workspaceId': string, profile': string, snapshots': seq<Snapshot>)
    requires Fits(ManifestFields(scope, workspaceId, profile, snapshots))
    requires Fits(ManifestFields(scope', workspaceId', profile', snapshots'))
    ensures Stream(ManifestFields(scope, workspaceId, profile, snapshots))
        == Stream(ManifestFields(scope', workspaceId', profile', snapshots'))
      <==> scope == scope' && workspaceId == workspaceId' && profile == profile' && SameSnapshots(snapshots, snapshots')
  {
    hide Stream, HeaderFields, AllSnapshotFields, SameSnapshots, Fits;
    var a := ManifestFields(scope, workspaceId, profile, snapshots);
    var b := ManifestFields(scope', workspaceId', profile', snapshots');
    StreamInjective(a, b);
    assert a[..5] == HeaderFields(scope, workspaceId, profile)
      && b[..5] == HeaderFields(scope', workspaceId', profile');
    assert a[5..] == AllSnapshotFields(snapshots) && b[5..] == AllSnapshotFields(snapshots');
    HeaderIff(scope, workspaceId, profile, scope', workspaceId', profile');
    AllSnapshotFieldsIff(snapshots, snapshots');
  }

  // ---- The fields of a prompt ----

  /** Numbers in their debug form. */
  datatype PromptInput = PromptInput(
    command: string,
    task: string,
    context: string,
    evidence: string,
    model: string,
    temperature: string,
    seed: string,
    cacheDimensions: seq<Field>)

  function PromptHeader(p: PromptInput): (fields: seq<Field>)
    ensures |fields| == 9
  {
    [Field("schema", "1"), Field("prompt_version", PROMPT_VERSION), Field("command", p.command), Field("task", p.task),
     Field("context", p.context), Field("evidence", p.evidence), Field("model", p.model),
     Field("temperature", p.temperature), Field("seed", p.seed)]
  }

  function PromptFields(p: PromptInput): seq<Field> {
    PromptHeader(p) + p.cacheDimensions
  }

  /** Nine named fields, then the open-ended ones in their order. */
  lemma FieldsOfPrompt(p: PromptInput)
    ensures var fields := PromptFields(p);
      && |fields| == 9 + |p.cacheDimensions| && fields[9..] == p.cacheDimensions
      && IsField(fields, 0, "schema", "1") && IsField(fields, 1, "prompt_version", "opticcode-grounding-prompt-v2")
      && IsField(fields, 2, "command", p.command) && IsField(fields, 3, "task", p.task)
      && IsField(fields, 4, "context", p.context) && IsField(fields, 5, "evidence", p.evidence)
      && IsField(fields, 6, "model", p.model) && IsField(fields, 7, "temperature", p.temperature)
      && IsField(fields, 8, "seed", p.seed)
  {
  }

  lemma PromptHeaderIff(p: PromptInput, q: PromptInput)
    ensures PromptHeader(p) == PromptHeader(q) <==> p.(cacheDimensions := []) == q.(cacheDimensions := [])
  {
    var a, b := PromptHeader(p), PromptHeader(q);
    if a == b {
      assert a[2] == b[2] && a[3] == b[3] && a[4] == b[4] && a[5] == b[5] && a[6] == b[6] && a[7] == b[7]
        && a[8] == b[8];
    }
  }

  /** Two prompts feed the hash the same bytes exactly when all their fields are equal, the open-ended ones in order. */
  lemma PromptStreamIff(p: PromptInput, q: PromptInput)
    requires Fits(PromptFields(p)) && Fits(PromptFields(q))
    ensures Stream(PromptFields(p)) == Stream(PromptFields(q)) <==> p == q
  {
    hide Stream, PromptHeader, Fits;
    var a, b := PromptFields(p), PromptFields(q);
    StreamInjective(a, b);
    assert a[..9] == PromptHeader(p) && a[9..] == p.cacheDimensions;
    assert b[..9] == PromptHeader(q) && b[9..] == q.cacheDimensions;
    PromptHeaderIff(p, q);
  }
}
