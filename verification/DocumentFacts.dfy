/**
 Answers about a structured document that are built without a model, and why each of them passes the
 evidence validator.
 */
module DocumentFacts {
  import opened Wrappers
  import opened Text
  import opened Utf8
  import opened Documents
  import opened Ordering
  import opened SnapshotRange
  import opened PatchText
  import opened DocumentParsers
  import opened Properties
  import opened Toml
  import opened Evidence
  import JsonTree
  import JsonScan
  import JsonSeen
  import JsonTables
  import JsonTheorem
  import LineScan

  /** What the question asks for; how it is read off the user's words is not part of this model. */
  datatype DocumentQuery = DocumentQuery(rootKeys: bool, presenceKeys: seq<string>, valueKeys: seq<string>)

  predicate IsFactQuery(q: DocumentQuery) {
    q.rootKeys || q.presenceKeys != [] || q.valueKeys != []
  }

  datatype Format = Yaml | Json | Toml | Properties

  /** What the two library parsers say. */
  datatype Libraries = Libraries(jsonObject: bool, decode: JsonTree.Decoder, yamlRoots: Option<seq<string>>)

  /** A document of this format is accepted. */
  ghost predicate Parses(format: Format, content: string, libraries: Libraries) {
    match format
    case Yaml => libraries.yamlRoots.Some? && YamlGood(content, libraries.yamlRoots.value)
    case Json => libraries.jsonObject && JsonScan.Scan(content, 0, JsonScan.START, libraries.decode).Ok?
    case Toml => TomlGood(Lines(content), |Lines(content)|)
    case Properties => PropertiesGood(Lines(content), |Lines(content)|)
  }

  /** What its reader then reports. */
  ghost predicate ParsedAs(format: Format, content: string, libraries: Libraries, p: ParsedDocument) {
    match format
    case Yaml =>
      && libraries.yamlRoots == Some(p.rootOrder)
      && LineScan.Recorded(YamlAssignments(content), |YamlAssignments(content)|, p.locations, p.values)
    case Json =>
      var scan := JsonScan.Scan(content, 0, JsonScan.START, libraries.decode);
      scan.Ok? && p == ParsedDocument(scan.value.roots, scan.value.tables.locations, scan.value.tables.values)
    case Toml =>
      && TomlRead(Lines(content), |Lines(content)|, p.locations, p.values)
      && p.rootOrder == TomlRoots(Lines(content), |Lines(content)|) && RootsAreNamed(p.locations, p.rootOrder)
    case Properties =>
      && PropertiesRead(content, p.locations, p.values)
      && p.rootOrder == PropertyKeys(Lines(content), |Lines(content)|)
      && p.locations.Keys == (set k | k in p.rootOrder)
  }

  method ParseDocument(format: Format, content: string, libraries: Libraries)
      returns (r: Result<ParsedDocument, ParseError>)
    ensures r.Ok? <==> Parses(format, content, libraries)
    ensures r.Ok? ==> ParsedAs(format, content, libraries, r.value) && AllLocated(content, r.value.locations)
  {
    hide AllLocated, YamlGood, TomlGood, TomlRead, TomlRoots, RootsAreNamed, PropertiesGood, PropertiesRead,
         PropertyKeys, Lines, JsonScan.Scan, LineScan.Recorded, YamlAssignments, PropertyPanic, TomlPanic;
    match format
    case Yaml => r := ParseYaml(content, libraries.yamlRoots);
    case Json => r := ParseJson(content, libraries.jsonObject, libraries.decode);
    case Toml =>
      r := ParseToml(content);
      if r.Ok? {
        TomlIsLocated(content, r.value.locations, r.value.values);
      }
    case Properties =>
      r := ParseProperties(content);
      if r.Ok? {
        PropertiesAreLocated(content, r.value.locations, r.value.values);
      }
  }

  lemma PropertiesAreLocated(content: string, locations: map<string, Location>, values: map<string, string>)
    requires PropertiesRead(content, locations, values)
    ensures AllLocated(content, locations)
  {
    hide SaysPair, LocatedIn;
  }

  // ---- The answer ----

  lemma {:induction false} TrimQuoteCharsStrips(s: string)
    ensures Stripped(s, TrimQuoteChars(s), {'`', '"', '\U{00AB}', '\U{00BB}'})
    decreases |s|
  {
    hide Stripped;
    if s != "" && s[0] in QuoteChars() {
      TrimQuoteCharsStrips(s[1..]);
      StrippedFirst(s, TrimQuoteChars(s[1..]), QuoteChars());
    } else if s != "" && s[|s| - 1] in QuoteChars() {
      TrimQuoteCharsStrips(s[..|s| - 1]);
      StrippedLast(s, TrimQuoteChars(s[..|s| - 1]), QuoteChars());
    } else {
      StrippedNothing(s, QuoteChars());
    }
  }

  /** A key is looked up without the white space around it, and then without the quotes around that. */
  lemma CanonicalKeyIff(key: string, path: string)
    ensures CanonicalQueryKey(key) == path <==> Stripped(Trim(key), path, {'`', '"', '\U{00AB}', '\U{00BB}'})
  {
    hide Stripped, TrimQuoteChars, Trim;
    TrimQuoteCharsStrips(Trim(key));
    if Stripped(Trim(key), path, QuoteChars()) {
      StrippedOnce(Trim(key), path, CanonicalQueryKey(key), QuoteChars());
    }
  }

  /** The lines of an answer stand under each other. */
  lemma {:induction false} JoinLinesSnoc(lines: seq<string>, line: string)
    ensures JoinLines(lines + [line]) == if lines == [] then line else JoinLines(lines) + "\n" + line
  {
    if |lines| == 1 {
      assert lines + [line] == [lines[0], line];
      assert [lines[0], line][1..] == [line];
    } else if |lines| > 1 {
      JoinLinesSnoc(lines[1..], line);
      assert (lines + [line])[1..] == lines[1..] + [line];
    }
  }

  function QuoteChars(): set<char> {
    {'`', '"', '\U{00AB}', '\U{00BB}'}
  }

  function TrimQuoteChars(s: string): string {
    if s == "" then ""
    else if s[0] in QuoteChars() then TrimQuoteChars(s[1..])
    else if s[|s| - 1] in QuoteChars() then TrimQuoteChars(s[..|s| - 1])
    else s
  }

  function CanonicalQueryKey(key: string): string {
    TrimQuoteChars(Trim(key))
  }

  function JoinLines(lines: seq<string>): string {
    if lines == [] then "" else if |lines| == 1 then lines[0] else lines[0] + "\n" + JoinLines(lines[1..])
  }

  const ROOT_KEY := "root-key"
  const KEY_PRESENT := "key-present"
  const KEY_ABSENT := "key-absent"
  const KEY_VALUE := "key-value"
  const KEY_VALUE_MISSING := "key-value-missing"

  /** A kind of claim, which its identifier starts with. */
  predicate IsKind(kind: string) {
    kind in {ROOT_KEY, KEY_PRESENT, KEY_ABSENT, KEY_VALUE, KEY_VALUE_MISSING}
  }

  function ClaimId(kind: string, number: nat): string {
    kind + "-" + Decimal(number)
  }

  function Cite(s: Snapshot, startLine: nat, endLine: nat): Citation {
    Citation(s.path, startLine, endLine, s.injectedHash)
  }

  /** The lines of the snippet fit between the recorded start and end line. */
  ghost predicate RangeFits(s: Snapshot) {
    && 1 <= s.range.startLine <= s.range.endLine
    && |Lines(s.content)| <= s.range.endLine - s.range.startLine + 1
  }

  /** A slice of a file, with the range that is computed for it. */
  ghost predicate SlicedFrom(s: Snapshot, text: string, j: nat, k: nat) {
    && j <= k <= |text| && s.content == text[j..k]
    && RangeFromBytes(text, ByteLen(text[..j]), ByteLen(text[..k])) == Some(s.range)
  }

  /** Whenever the range computation is defined, it spans exactly the lines of the slice. */
  lemma RangeSpansLines(s: Snapshot, text: string, j: nat, k: nat)
    requires SlicedFrom(s, text, j, k)
    ensures RangeFits(s) && (j < k ==> |Lines(s.content)| == s.range.endLine - s.range.startLine + 1)
  {
    hide Encode, ByteLen, RangeFromBytes, Newlines, CharLen, SplitInclusive;
    RangeDefinedIff(text, j, k);
    LineCountIsLines(s.content);
    if j < k {
      NewlinesMonotone(text, j, k - 1);
      NewlinesStep(s.content, |s.content| - 1);
      assert s.content[..|s.content| - 1] == text[j..k - 1];
      assert s.content[..|s.content|] == s.content;
    }
  }

  /** The `k`-th claim about a document: observed, numbered, and citing lines that were injected. */
  ghost predicate FactClaim(claim: Claim, k: nat, s: Snapshot) {
    && claim.classification.ObservedFact?
    && (exists kind :: IsKind(kind) && claim.claimId == ClaimId(kind, k + 1))
    && |claim.evidence| == 1
    && var c := claim.evidence[0];
       && c.path == s.path && c.contentHash == s.injectedHash
       && s.range.startLine <= c.startLine <= c.endLine <= s.range.endLine
  }

  ghost predicate FactClaims(claims: seq<Claim>, s: Snapshot) {
    forall k :: 0 <= k < |claims| ==> FactClaim(claims[k], k, s)
  }

  /** A response of the deterministic route. */
  ghost predicate FactsFor(r: Response, s: Snapshot) {
    r.schemaVersion == GROUNDING_SCHEMA_VERSION && !r.usedGeneralKnowledge && r.claims != [] && FactClaims(r.claims, s)
  }

  lemma OneMoreFact(claims: seq<Claim>, s: Snapshot, kind: string, startLine: nat, endLine: nat)
    requires FactClaims(claims, s) && IsKind(kind) && s.range.startLine <= startLine <= endLine <= s.range.endLine
    ensures FactClaims(claims + [Claim(ClaimId(kind, |claims| + 1), ObservedFact, [Cite(s, startLine, endLine)])], s)
  {
    hide IsKind, ClaimId;
    var claim := Claim(ClaimId(kind, |claims| + 1), ObservedFact, [Cite(s, startLine, endLine)]);
    assert FactClaim(claim, |claims|, s);
  }

  /** A line of the snippet, shifted by where the snippet starts, is an injected line. */
  lemma ShiftedLine(s: Snapshot, l: Location)
    requires RangeFits(s) && LocatedIn(s.content, l)
    ensures s.range.startLine <= l.line + (s.range.startLine - 1) <= s.range.endLine
  {
    hide Lines;
  }

  // ---- The claims, one by one ----

  /** The line of the file on which a line of the snippet stands. */
  function FileLine(s: Snapshot, line: nat): int {
    line + s.range.startLine - 1
  }

  /** A claim about a key on a line of the snippet. */
  function OnLine(kind: string, number: nat, s: Snapshot, line: nat): Claim
    requires s.range.startLine >= 1
  {
    Claim(ClaimId(kind, number), ObservedFact, [Cite(s, FileLine(s, line), FileLine(s, line))])
  }

  /** A claim about a key that is not there cites everything that was looked at. */
  function NotThere(kind: string, number: nat, s: Snapshot): Claim {
    Claim(ClaimId(kind, number), ObservedFact, [Cite(s, s.range.startLine, s.range.endLine)])
  }

  function RootClaimsOf(roots: seq<string>, locations: map<string, Location>, s: Snapshot): (claims: seq<Claim>)
    requires s.range.startLine >= 1 && forall k :: k in roots ==> k in locations
    ensures |claims| == |roots|
  {
    if roots == [] then []
    else
      var n := |roots| - 1;
      RootClaimsOf(roots[..n], locations, s) + [OnLine(ROOT_KEY, n + 1, s, locations[roots[n]].line)]
  }

  function PresenceClaim(key: string, number: nat, parsed: ParsedDocument, s: Snapshot): Claim
    requires s.range.startLine >= 1
  {
    var path := CanonicalQueryKey(key);
    if path in parsed.locations then OnLine(KEY_PRESENT, number, s, parsed.locations[path].line)
    else NotThere(KEY_ABSENT, number, s)
  }

  function PresenceAnswer(key: string, parsed: ParsedDocument): string {
    var path := CanonicalQueryKey(key);
    if path in parsed.locations then Trim(parsed.locations[path].source) else key + " absent"
  }

  function ValueClaim(key: string, number: nat, parsed: ParsedDocument, s: Snapshot): Claim
    requires s.range.startLine >= 1
  {
    var path := CanonicalQueryKey(key);
    if path in parsed.values && path in parsed.locations then OnLine(KEY_VALUE, number, s, parsed.locations[path].line)
    else NotThere(KEY_VALUE_MISSING, number, s)
  }

  function ValueAnswer(key: string, parsed: ParsedDocument): string {
    var path := CanonicalQueryKey(key);
    if path in parsed.values && path in parsed.locations then key + " = " + parsed.values[path] else key + " absent"
  }

  /** One claim for every key, numbered behind `n` others. */
  function PresenceClaims(keys: seq<string>, n: nat, parsed: ParsedDocument, s: Snapshot): (claims: seq<Claim>)
    requires s.range.startLine >= 1
    ensures |claims| == |keys|
  {
    if keys == [] then []
    else
      var last := |keys| - 1;
      PresenceClaims(keys[..last], n, parsed, s) + [PresenceClaim(keys[last], n + last + 1, parsed, s)]
  }

  function ValueClaims(keys: seq<string>, n: nat, parsed: ParsedDocument, s: Snapshot): (claims: seq<Claim>)
    requires s.range.startLine >= 1
    ensures |claims| == |keys|
  {
    if keys == [] then []
    else
      var last := |keys| - 1;
      ValueClaims(keys[..last], n, parsed, s) + [ValueClaim(keys[last], n + last + 1, parsed, s)]
  }

  function PresenceAnswers(keys: seq<string>, parsed: ParsedDocument): seq<string> {
    if keys == [] then []
    else PresenceAnswers(keys[..|keys| - 1], parsed) + [PresenceAnswer(keys[|keys| - 1], parsed)]
  }

  function ValueAnswers(keys: seq<string>, parsed: ParsedDocument): seq<string> {
    if keys == [] then []
    else ValueAnswers(keys[..|keys| - 1], parsed) + [ValueAnswer(keys[|keys| - 1], parsed)]
  }

  ghost predicate RootsLocated(query: DocumentQuery, parsed: ParsedDocument) {
    query.rootKeys ==> forall k :: k in parsed.rootOrder ==> k in parsed.locations
  }

  /** What is claimed: root keys if asked for, then every presence and every value that was asked for. */
  function ClaimsFor(query: DocumentQuery, parsed: ParsedDocument, s: Snapshot): seq<Claim>
    requires s.range.startLine >= 1 && RootsLocated(query, parsed)
  {
    var roots := if query.rootKeys then RootClaimsOf(parsed.rootOrder, parsed.locations, s) else [];
    roots
    + PresenceClaims(query.presenceKeys, |roots|, parsed, s)
    + ValueClaims(query.valueKeys, |roots| + |query.presenceKeys|, parsed, s)
  }

  function AnswerFor(query: DocumentQuery, parsed: ParsedDocument): seq<string> {
    (if query.rootKeys then parsed.rootOrder else [])
    + PresenceAnswers(query.presenceKeys, parsed) + ValueAnswers(query.valueKeys, parsed)
  }

  method RootClaims(parsed: ParsedDocument, s: Snapshot) returns (r: Option<seq<Claim>>)
    requires RangeFits(s) && AllLocated(s.content, parsed.locations)
    ensures r.None? <==> exists k :: k in parsed.rootOrder && k !in parsed.locations
    ensures r.Some? ==> r.value == RootClaimsOf(parsed.rootOrder, parsed.locations, s) && FactClaims(r.value, s)
  {
    hide *;
    Kinds();
    NoFacts(s);
    FitsFromOne(s);
    NoClaims(parsed, s, 0);
    var claims: seq<Claim> := [];
    for index := 0 to |parsed.rootOrder|
      invariant FactClaims(claims, s)
      invariant forall i :: 0 <= i < index ==> parsed.rootOrder[i] in parsed.locations
      invariant claims == RootClaimsOf(parsed.rootOrder[..index], parsed.locations, s)
    {
      var key := parsed.rootOrder[index];
      if key !in parsed.locations {
        return None;
      }
      var location := parsed.locations[key];
      Located(s.content, parsed.locations, key);
      ShiftedLine(s, location);
      var line := location.line + (s.range.startLine - 1);
      OneMoreFact(claims, s, ROOT_KEY, line, line);
      NextRoot(parsed.rootOrder, index, parsed.locations, s);
      OnLineIs(ROOT_KEY, index + 1, s, location.line);
      claims := claims + [Claim(ClaimId(ROOT_KEY, index + 1), ObservedFact, [Cite(s, line, line)])];
    }
    assert parsed.rootOrder[..|parsed.rootOrder|] == parsed.rootOrder;
    return Some(claims);
  }

  lemma OnLineIs(kind: string, number: nat, s: Snapshot, line: nat)
    requires s.range.startLine >= 1
    ensures var at := line + (s.range.startLine - 1);
      OnLine(kind, number, s, line) == Claim(ClaimId(kind, number), ObservedFact, [Cite(s, at, at)])
  {
    hide ClaimId, Cite;
  }

  lemma NoFacts(s: Snapshot)
    ensures FactClaims([], s)
  {
  }

  /** One requested key: found on its line, or reported absent for the whole range. */
  method KeyClaim(found: bool, location: Location, claims: seq<Claim>, present: string, absent: string, s: Snapshot)
      returns (extended: seq<Claim>)
    requires RangeFits(s) && FactClaims(claims, s) && IsKind(present) && IsKind(absent)
    requires found ==> LocatedIn(s.content, location)
    ensures FactClaims(extended, s)
    ensures extended == claims + [
      if found then OnLine(present, |claims| + 1, s, location.line) else NotThere(absent, |claims| + 1, s)]
  {
    hide LocatedIn, FactClaims, IsKind, ClaimId, Lines;
    if found {
      ShiftedLine(s, location);
      var line := location.line + (s.range.startLine - 1);
      OneMoreFact(claims, s, present, line, line);
      extended := claims + [Claim(ClaimId(present, |claims| + 1), ObservedFact, [Cite(s, line, line)])];
    } else {
      OneMoreFact(claims, s, absent, s.range.startLine, s.range.endLine);
      extended := claims
        + [Claim(ClaimId(absent, |claims| + 1), ObservedFact, [Cite(s, s.range.startLine, s.range.endLine)])];
    }
  }

  lemma Kinds()
    ensures IsKind(ROOT_KEY) && IsKind(KEY_PRESENT) && IsKind(KEY_ABSENT) && IsKind(KEY_VALUE)
      && IsKind(KEY_VALUE_MISSING)
  {
  }

  lemma FitsFromOne(s: Snapshot)
    requires RangeFits(s)
    ensures s.range.startLine >= 1
  {
  }

  lemma NextRoot(roots: seq<string>, i: nat, locations: map<string, Location>, s: Snapshot)
    requires i < |roots| && s.range.startLine >= 1 && forall j :: 0 <= j <= i ==> roots[j] in locations
    ensures RootClaimsOf(roots[..i + 1], locations, s)
      == RootClaimsOf(roots[..i], locations, s) + [OnLine(ROOT_KEY, i + 1, s, locations[roots[i]].line)]
  {
    hide OnLine;
    assert roots[..i + 1][..i] == roots[..i];
  }

  lemma NextPresence(keys: seq<string>, i: nat, n: nat, parsed: ParsedDocument, s: Snapshot)
    requires i < |keys| && s.range.startLine >= 1
    ensures PresenceClaims(keys[..i + 1], n, parsed, s)
      == PresenceClaims(keys[..i], n, parsed, s) + [PresenceClaim(keys[i], n + i + 1, parsed, s)]
    ensures PresenceAnswers(keys[..i + 1], parsed)
      == PresenceAnswers(keys[..i], parsed) + [PresenceAnswer(keys[i], parsed)]
  {
    hide PresenceClaim, PresenceAnswer;
    assert keys[..i + 1][..i] == keys[..i];
  }

  lemma NextValue(keys: seq<string>, i: nat, n: nat, parsed: ParsedDocument, s: Snapshot)
    requires i < |keys| && s.range.startLine >= 1
    ensures ValueClaims(keys[..i + 1], n, parsed, s)
      == ValueClaims(keys[..i], n, parsed, s) + [ValueClaim(keys[i], n + i + 1, parsed, s)]
    ensures ValueAnswers(keys[..i + 1], parsed) == ValueAnswers(keys[..i], parsed) + [ValueAnswer(keys[i], parsed)]
  {
    hide ValueClaim, ValueAnswer;
    assert keys[..i + 1][..i] == keys[..i];
  }

  /** Claims about the presence of keys, appended to others. */
  method ClaimPresences(keys: seq<string>, parsed: ParsedDocument, s: Snapshot, said: seq<string>, claimed: seq<Claim>)
      returns (answer: seq<string>, claims: seq<Claim>)
    requires RangeFits(s) && AllLocated(s.content, parsed.locations) && FactClaims(claimed, s)
    ensures FactClaims(claims, s) && claims == claimed + PresenceClaims(keys, |claimed|, parsed, s)
    ensures answer == said + PresenceAnswers(keys, parsed)
  {
    hide *;
    Kinds();
    FitsFromOne(s);
    NoClaims(parsed, s, |claimed|);
    answer, claims := said, claimed;
    for i := 0 to |keys|
      invariant FactClaims(claims, s) && claims == claimed + PresenceClaims(keys[..i], |claimed|, parsed, s)
      invariant answer == said + PresenceAnswers(keys[..i], parsed)
    {
      var path := CanonicalQueryKey(keys[i]);
      var found := path in parsed.locations;
      var location := if found then parsed.locations[path] else Location(0, "");
      NextPresence(keys, i, |claimed|, parsed, s);
      PresenceIs(keys[i], |claims| + 1, parsed, s);
      if found {
        Located(s.content, parsed.locations, path);
      }
      claims := KeyClaim(found, location, claims, KEY_PRESENT, KEY_ABSENT, s);
      answer := answer + [if found then Trim(location.source) else keys[i] + " absent"];
    }
    assert keys[..|keys|] == keys;
  }

  /** Claims about the values of keys, appended to others. */
  method ClaimValues(keys: seq<string>, parsed: ParsedDocument, s: Snapshot, said: seq<string>, claimed: seq<Claim>)
      returns (answer: seq<string>, claims: seq<Claim>)
    requires RangeFits(s) && AllLocated(s.content, parsed.locations) && FactClaims(claimed, s)
    ensures FactClaims(claims, s) && claims == claimed + ValueClaims(keys, |claimed|, parsed, s)
    ensures answer == said + ValueAnswers(keys, parsed)
  {
    hide *;
    Kinds();
    FitsFromOne(s);
    NoClaims(parsed, s, |claimed|);
    answer, claims := said, claimed;
    for i := 0 to |keys|
      invariant FactClaims(claims, s) && claims == claimed + ValueClaims(keys[..i], |claimed|, parsed, s)
      invariant answer == said + ValueAnswers(keys[..i], parsed)
    {
      var path := CanonicalQueryKey(keys[i]);
      var found := path in parsed.values && path in parsed.locations;
      var location := if found then parsed.locations[path] else Location(0, "");
      NextValue(keys, i, |claimed|, parsed, s);
      ValueIs(keys[i], |claims| + 1, parsed, s);
      if found {
        Located(s.content, parsed.locations, path);
      }
      claims := KeyClaim(found, location, claims, KEY_VALUE, KEY_VALUE_MISSING, s);
      answer := answer + [if found then keys[i] + " = " + parsed.values[path] else keys[i] + " absent"];
    }
    assert keys[..|keys|] == keys;
  }

  lemma Located(content: string, locations: map<string, Location>, path: string)
    requires AllLocated(content, locations) && path in locations
    ensures LocatedIn(content, locations[path])
  {
    hide LocatedIn;
  }

  lemma PresenceIs(key: string, number: nat, parsed: ParsedDocument, s: Snapshot)
    requires s.range.startLine >= 1
    ensures var path := CanonicalQueryKey(key);
      if path in parsed.locations then
        && PresenceClaim(key, number, parsed, s) == OnLine(KEY_PRESENT, number, s, parsed.locations[path].line)
        && PresenceAnswer(key, parsed) == Trim(parsed.locations[path].source)
      else
        && PresenceClaim(key, number, parsed, s) == NotThere(KEY_ABSENT, number, s)
        && PresenceAnswer(key, parsed) == key + " absent"
  {
    hide CanonicalQueryKey, OnLine, NotThere, Trim;
  }

  lemma ValueIs(key: string, number: nat, parsed: ParsedDocument, s: Snapshot)
    requires s.range.startLine >= 1
    ensures var path := CanonicalQueryKey(key);
      if path in parsed.values && path in parsed.locations then
        && ValueClaim(key, number, parsed, s) == OnLine(KEY_VALUE, number, s, parsed.locations[path].line)
        && ValueAnswer(key, parsed) == key + " = " + parsed.values[path]
      else
        && ValueClaim(key, number, parsed, s) == NotThere(KEY_VALUE_MISSING, number, s)
        && ValueAnswer(key, parsed) == key + " absent"
  {
    hide CanonicalQueryKey, OnLine, NotThere;
  }

  lemma NoClaims(parsed: ParsedDocument, s: Snapshot, n: nat)
    requires s.range.startLine >= 1
    ensures RootClaimsOf([], parsed.locations, s) == []
    ensures PresenceClaims([], n, parsed, s) == [] && PresenceAnswers([], parsed) == []
    ensures ValueClaims([], n, parsed, s) == [] && ValueAnswers([], parsed) == []
  {
  }

  datatype FactsError = ParseFailed(error: ParseError) | UnlocatedRoot

  /** The answer to a question about a parsed document. */
  ghost predicate Answered(query: DocumentQuery, parsed: ParsedDocument, s: Snapshot,
                           r: Result<Option<Response>, FactsError>)
    requires s.range.startLine >= 1
  {
    if !RootsLocated(query, parsed) then r == Err(UnlocatedRoot)
    else if ClaimsFor(query, parsed, s) == [] then r == Ok(None)
    else r == Ok(Some(Response(GROUNDING_SCHEMA_VERSION, JoinLines(AnswerFor(query, parsed)),
                               ClaimsFor(query, parsed, s), false)))
  }

  lemma {:induction false} PresenceCount(keys: seq<string>, parsed: ParsedDocument)
    ensures |PresenceAnswers(keys, parsed)| == |ValueAnswers(keys, parsed)| == |keys|
  {
    hide PresenceAnswer, ValueAnswer;
    if keys != [] {
      PresenceCount(keys[..|keys| - 1], parsed);
    }
  }

  lemma LocatedRoots(query: DocumentQuery, parsed: ParsedDocument)
    ensures RootsLocated(query, parsed)
      <==> query.rootKeys ==> !(exists k :: k in parsed.rootOrder && k !in parsed.locations)
  {
  }

  lemma ClaimsAre(query: DocumentQuery, parsed: ParsedDocument, s: Snapshot)
    requires s.range.startLine >= 1
    requires query.rootKeys ==> !(exists k :: k in parsed.rootOrder && k !in parsed.locations)
    ensures RootsLocated(query, parsed)
    ensures var roots := if query.rootKeys then RootClaimsOf(parsed.rootOrder, parsed.locations, s) else [];
      ClaimsFor(query, parsed, s)
      == roots + PresenceClaims(query.presenceKeys, |roots|, parsed, s)
         + ValueClaims(query.valueKeys, |roots| + |query.presenceKeys|, parsed, s)
    ensures AnswerFor(query, parsed)
      == (if query.rootKeys then parsed.rootOrder else [])
         + PresenceAnswers(query.presenceKeys, parsed) + ValueAnswers(query.valueKeys, parsed)
  {
    hide RootClaimsOf, PresenceClaims, ValueClaims, PresenceAnswers, ValueAnswers;
  }

  lemma AsManyAnswers(query: DocumentQuery, parsed: ParsedDocument, s: Snapshot)
    requires s.range.startLine >= 1 && RootsLocated(query, parsed)
    ensures |AnswerFor(query, parsed)| == |ClaimsFor(query, parsed, s)|
  {
    hide PresenceAnswers, ValueAnswers, PresenceClaims, ValueClaims;
    PresenceCount(query.presenceKeys, parsed);
    PresenceCount(query.valueKeys, parsed);
  }

  /** The question is put to a document of a known format. */
  ghost predicate Asks(query: DocumentQuery, force: bool, format: Option<Format>) {
    (force || query.rootKeys || |query.presenceKeys| + |query.valueKeys| > 0) && format.Some?
  }

  /** The whole outcome of an inspection. */
  ghost predicate Inspected(query: DocumentQuery, s: Snapshot, force: bool, format: Option<Format>,
                            libraries: Libraries, r: Result<Option<Response>, FactsError>)
    requires s.range.startLine >= 1
  {
    if !Asks(query, force, format) then r == Ok(None)
    else if !Parses(format.value, s.content, libraries) then r.Err? && r.error.ParseFailed?
    else exists parsed :: ParsedAs(format.value, s.content, libraries, parsed) && Answered(query, parsed, s, r)
  }

  method AnswerParsed(query: DocumentQuery, parsed: ParsedDocument, s: Snapshot)
      returns (r: Result<Option<Response>, FactsError>)
    requires RangeFits(s) && AllLocated(s.content, parsed.locations) && s.range.startLine >= 1
    ensures Answered(query, parsed, s, r)
    ensures r.Ok? && r.value.Some? ==> FactsFor(r.value.value, s)
  {
    NoFacts(s);
    hide AllLocated, FactClaims, RangeFits, JoinLines, PresenceClaims, ValueClaims, PresenceAnswers, ValueAnswers,
         RootClaimsOf, ClaimsFor, AnswerFor, RootsLocated;
    var answer: seq<string>, claims: seq<Claim> := [], [];
    LocatedRoots(query, parsed);
    if query.rootKeys {
      answer := parsed.rootOrder;
      var roots := RootClaims(parsed, s);
      if roots.None? {
        return Err(UnlocatedRoot);
      }
      claims := roots.value;
    }
    answer, claims := ClaimPresences(query.presenceKeys, parsed, s, answer, claims);
    answer, claims := ClaimValues(query.valueKeys, parsed, s, answer, claims);
    ClaimsAre(query, parsed, s);
    AsManyAnswers(query, parsed, s);
    if answer == [] {
      return Ok(None);
    }
    return Ok(Some(Response(GROUNDING_SCHEMA_VERSION, JoinLines(answer), claims, false)));
  }

  lemma InspectedBy(query: DocumentQuery, s: Snapshot, force: bool, format: Option<Format>, libraries: Libraries,
                    parsed: ParsedDocument, r: Result<Option<Response>, FactsError>)
    requires s.range.startLine >= 1 && Asks(query, force, format) && Parses(format.value, s.content, libraries)
    requires ParsedAs(format.value, s.content, libraries, parsed) && Answered(query, parsed, s, r)
    ensures Inspected(query, s, force, format, libraries, r)
  {
    hide Parses, ParsedAs, Answered;
  }

  /** `inspect_document_facts` for the formats scanned line by line or by path. */
  method InspectDocumentFacts(query: DocumentQuery, s: Snapshot, force: bool, format: Option<Format>,
                              libraries: Libraries)
      returns (r: Result<Option<Response>, FactsError>)
    requires RangeFits(s)
    ensures Inspected(query, s, force, format, libraries, r)
    ensures r.Ok? && r.value.Some? ==> FactsFor(r.value.value, s)
  {
    FitsFromOne(s);
    hide AllLocated, FactsFor, RangeFits, Parses, ParsedAs, Answered;
    if !force && !IsFactQuery(query) {
      return Ok(None);
    }
    if format.None? {
      return Ok(None);
    }
    var parsing := ParseDocument(format.value, s.content, libraries);
    if parsing.Err? {
      return Err(ParseFailed(parsing.error));
    }
    r := AnswerParsed(query, parsing.value, s);
    InspectedBy(query, s, force, format, libraries, parsing.value, r);
  }

  // ---- Why it passes ----

  /** The manifest's entry for the snapshot's path is the snapshot's own. */
  ghost predicate Represents(manifest: Manifest, s: Snapshot) {
    EntryFor(manifest.entries, s.path) == Some(EntryOf(s)) && s.workspaceId == manifest.workspaceId
  }

  /** Building a manifest keeps the last snapshot of each path; any later one must have another path. */
  lemma {:induction false} ManifestRepresents(scope: ContextScope, workspaceId: string, snapshots: seq<Snapshot>,
                                              i: nat)
    requires i < |snapshots| && snapshots[i].workspaceId == workspaceId
    requires forall j :: i < j < |snapshots| ==> snapshots[j].path != snapshots[i].path
    ensures Represents(BuildManifest(scope, workspaceId, snapshots), snapshots[i])
    decreases |snapshots|
  {
    hide TotalBytes, ByteLen;
    var entries := Map(EntryOf, snapshots);
    var last := |snapshots| - 1;
    assert entries[..last] == Map(EntryOf, snapshots[..last]);
    if i < last {
      ManifestRepresents(scope, workspaceId, snapshots[..last], i);
    }
  }

  lemma {:induction false} FactIdsDiffer(claims: seq<Claim>, s: Snapshot)
    requires FactClaims(claims, s)
    ensures NoDuplicates(Ids(claims))
  {
    hide Decimal, IsKind;
    forall i, j | 0 <= i < j < |claims| ensures Ids(claims)[i] != Ids(claims)[j] {
      assert FactClaim(claims[i], i, s) && FactClaim(claims[j], j, s);
      var a :| IsKind(a) && claims[i].claimId == ClaimId(a, i + 1);
      var b :| IsKind(b) && claims[j].claimId == ClaimId(b, j + 1);
      if Decimal(i + 1) == Decimal(j + 1) {
        DecimalInjective(i + 1, j + 1);
      }
      LastDash(a, Decimal(i + 1), b, Decimal(j + 1));
    }
  }

  lemma NotBlank(s: string)
    requires s != "" && !IsWhitespace(s[0])
    ensures Trim(s) != ""
  {
  }

  lemma FactIdNotBlank(kind: string, number: nat)
    requires IsKind(kind)
    ensures Trim(ClaimId(kind, number)) != ""
  {
    hide Trim, Decimal;
    NotBlank(ClaimId(kind, number));
  }

  lemma FactClaimIsOk(claim: Claim, k: nat, s: Snapshot, response: Response, manifest: Manifest, mode: EvidenceMode)
    requires FactClaim(claim, k, s) && Represents(manifest, s)
    ensures ClaimOk(claim, response, manifest, mode)
  {
    hide IsKind, ClaimId, Trim, EntryFor;
    var kind :| IsKind(kind) && claim.claimId == ClaimId(kind, k + 1);
    FactIdNotBlank(kind, k + 1);
    assert EntryOf(s).ranges[0] == s.range;
    assert CoveredBy(claim.evidence[0], EntryOf(s).ranges);
  }

  /** Every answer of the deterministic route passes, in every mode and scope. */
  lemma FactsPass(r: Response, s: Snapshot, manifest: Manifest, mode: EvidenceMode)
    requires FactsFor(r, s) && Represents(manifest, s)
    ensures ResponseOk(r, manifest, mode)
  {
    hide FactClaim, ClaimOk, Represents, NoDuplicates, Trim;
    FactIdsDiffer(r.claims, s);
    forall i | 0 <= i < |r.claims| ensures ClaimOk(r.claims[i], r, manifest, mode) {
      FactClaimIsOk(r.claims[i], i, s, r, manifest, mode);
    }
  }

  /**
   In general such an answer passes exactly when the manifest's entry for its path has its hash, covers
   its citations and is of the manifest's workspace.
   */
  lemma FactsPassIff(r: Response, s: Snapshot, manifest: Manifest, mode: EvidenceMode)
    requires FactsFor(r, s)
    ensures ResponseOk(r, manifest, mode) <==>
      var entry := EntryFor(manifest.entries, s.path);
      && entry.Some? && entry.value.injectedHash == s.injectedHash && entry.value.workspaceId == manifest.workspaceId
      && forall i :: 0 <= i < |r.claims| ==>
           |r.claims[i].evidence| == 1 && CoveredBy(r.claims[i].evidence[0], entry.value.ranges)
  {
    hide IsKind, ClaimId, Trim, EntryFor, CoveredBy, NoDuplicates;
    FactIdsDiffer(r.claims, s);
    forall i | 0 <= i < |r.claims|
      ensures Trim(r.claims[i].claimId) != "" && r.claims[i].classification.ObservedFact?
      ensures |r.claims[i].evidence| == 1 && r.claims[i].evidence[0].path == s.path
      ensures r.claims[i].evidence[0].contentHash == s.injectedHash
    {
      assert FactClaim(r.claims[i], i, s);
      var kind :| IsKind(kind) && r.claims[i].claimId == ClaimId(kind, i + 1);
      FactIdNotBlank(kind, i + 1);
    }
    assert ResponseOk(r, manifest, mode) ==> ClaimOk(r.claims[0], r, manifest, mode);
  }

  /**
   The whole route, which a request takes only with a single snapshot: a slice of a file, its facts, the
   manifest, and the validator's report on them.
   */
  method InspectAndValidate(query: DocumentQuery, snapshots: seq<Snapshot>, force: bool, format: Option<Format>,
                            libraries: Libraries, scope: ContextScope, mode: EvidenceMode,
                            ghost text: string, ghost j: nat, ghost k: nat)
      returns (r: Result<Option<Response>, FactsError>, report: Option<Report>)
    requires |snapshots| == 1 ==> SlicedFrom(snapshots[0], text, j, k)
    ensures |snapshots| != 1 ==> r == Ok(None)
    ensures |snapshots| == 1 ==>
      snapshots[0].range.startLine >= 1 && Inspected(query, snapshots[0], force, format, libraries, r)
    ensures report.Some? <==> r.Ok? && r.value.Some?
    ensures report.Some? ==> report.value.valid && report.value.errors == []
  {
    hide *;
    if |snapshots| != 1 {
      return Ok(None), None;
    }
    var s := snapshots[0];
    RangeSpansLines(s, text, j, k);
    FitsFromOne(s);
    r := InspectDocumentFacts(query, s, force, format, libraries);
    if r.Err? || r.value.None? {
      return r, None;
    }
    var manifest := BuildManifest(scope, s.workspaceId, snapshots);
    ManifestRepresents(scope, s.workspaceId, snapshots, 0);
    FactsPass(r.value.value, s, manifest, mode);
    var checked := ValidateEvidence(r.value.value, manifest, mode);
    report := Some(checked);
  }

  // ---- Where the claims come from ----

  /** An observed fact with this identifier that cites these lines of the file as they were injected. */
  ghost predicate Cites(claim: Claim, id: string, s: Snapshot, startLine: int, endLine: int) {
    && claim.claimId == id && claim.classification == ObservedFact
    && |claim.evidence| == 1
    && var c := claim.evidence[0];
    c.path == s.path && c.startLine == startLine && c.endLine == endLine && c.contentHash == s.injectedHash
  }

  /** What is claimed and answered about a key that is found on this line of the snippet with this value. */
  ghost predicate ClaimedAt(key: string, number: nat, parsed: ParsedDocument, s: Snapshot, line: nat, value: string)
    requires s.range.startLine >= 1
  {
    var at := s.range.startLine + line - 1;
    && Cites(PresenceClaim(key, number, parsed, s), "key-present-" + Decimal(number), s, at, at)
    && Cites(ValueClaim(key, number, parsed, s), "key-value-" + Decimal(number), s, at, at)
    && PresenceAnswer(key, parsed) == Trim(LineText(s.content, line))
    && ValueAnswer(key, parsed) == key + " = " + value
  }

  /** And about one that is not: it cites everything that was looked at. */
  ghost predicate ClaimedMissing(key: string, number: nat, parsed: ParsedDocument, s: Snapshot)
    requires s.range.startLine >= 1
  {
    && Cites(PresenceClaim(key, number, parsed, s), "key-absent-" + Decimal(number), s, s.range.startLine,
             s.range.endLine)
    && Cites(ValueClaim(key, number, parsed, s), "key-value-missing-" + Decimal(number), s, s.range.startLine,
             s.range.endLine)
    && PresenceAnswer(key, parsed) == key + " absent" && ValueAnswer(key, parsed) == key + " absent"
  }

  lemma Identifiers(number: nat)
    ensures ClaimId(ROOT_KEY, number) == "root-key-" + Decimal(number)
    ensures ClaimId(KEY_PRESENT, number) == "key-present-" + Decimal(number)
    ensures ClaimId(KEY_ABSENT, number) == "key-absent-" + Decimal(number)
    ensures ClaimId(KEY_VALUE, number) == "key-value-" + Decimal(number)
    ensures ClaimId(KEY_VALUE_MISSING, number) == "key-value-missing-" + Decimal(number)
  {
    hide Decimal;
  }

  lemma OnLineCites(kind: string, number: nat, s: Snapshot, line: nat)
    requires s.range.startLine >= 1
    ensures var at := s.range.startLine + line - 1;
      Cites(OnLine(kind, number, s, line), ClaimId(kind, number), s, at, at)
    ensures Cites(NotThere(kind, number, s), ClaimId(kind, number), s, s.range.startLine, s.range.endLine)
  {
    hide ClaimId;
  }

  lemma LocatedClaims(key: string, number: nat, parsed: ParsedDocument, s: Snapshot, line: nat, value: string)
    requires s.range.startLine >= 1
    requires var path := CanonicalQueryKey(key);
      && path in parsed.locations && parsed.locations[path] == Location(line, LineText(s.content, line))
      && path in parsed.values && parsed.values[path] == value
    ensures ClaimedAt(key, number, parsed, s, line, value)
  {
    hide CanonicalQueryKey, OnLine, NotThere, Trim, ClaimId, Cites, LineText, PresenceClaim, ValueClaim, PresenceAnswer,
         ValueAnswer;
    PresenceIs(key, number, parsed, s);
    ValueIs(key, number, parsed, s);
    Identifiers(number);
    OnLineCites(KEY_PRESENT, number, s, line);
    OnLineCites(KEY_VALUE, number, s, line);
  }

  lemma MissingClaims(key: string, number: nat, parsed: ParsedDocument, s: Snapshot)
    requires s.range.startLine >= 1 && CanonicalQueryKey(key) !in parsed.locations
    ensures ClaimedMissing(key, number, parsed, s)
  {
    hide CanonicalQueryKey, OnLine, NotThere, Trim, ClaimId, Cites, PresenceClaim, ValueClaim, PresenceAnswer,
         ValueAnswer;
    PresenceIs(key, number, parsed, s);
    ValueIs(key, number, parsed, s);
    Identifiers(number);
    OnLineCites(KEY_ABSENT, number, s, 0);
    OnLineCites(KEY_VALUE_MISSING, number, s, 0);
  }

  /** A key of a properties document is claimed on the line that says so, any other key is claimed missing. */
  lemma PropertiesClaims(s: Snapshot, libraries: Libraries, parsed: ParsedDocument, key: string, number: nat, i: nat,
                         value: string)
    requires s.range.startLine >= 1 && ParsedAs(Properties, s.content, libraries, parsed)
    requires WellWritten(Lines(s.content))
    ensures var lines, path := Lines(s.content), CanonicalQueryKey(key);
      (forall j, v :: 0 <= j < |lines| ==> !SaysPair(lines[j], path, v)) ==> ClaimedMissing(key, number, parsed, s)
    ensures var lines, path := Lines(s.content), CanonicalQueryKey(key);
      i < |lines| && SaysPair(lines[i], path, value) ==> ClaimedAt(key, number, parsed, s, i + 1, value)
  {
    hide Lines, ReadProperty, CanonicalQueryKey, ClaimedAt, ClaimedMissing, PropertyKeys, PropertiesGood, SaysPair,
         IsBlankText;
    var lines, path := Lines(s.content), CanonicalQueryKey(key);
    GoodIffWellWritten(lines);
    if path !in parsed.locations {
      MissingClaims(key, number, parsed, s);
    }
    if i < |lines| && SaysPair(lines[i], path, value) {
      SaysPairIff(lines[i], path, value);
      KeyIsListed(lines, i, |lines|);
      var own := parsed.locations[path].line - 1;
      assert SaysPair(lines[own], path, parsed.values[path]);
      SaysPairIff(lines[own], path, parsed.values[path]);
      OwnLine(lines, i, own);
      LocatedClaims(key, number, parsed, s, i + 1, value);
    }
  }

  /** The same of a TOML document and its dotted paths. */
  lemma TomlClaims(s: Snapshot, libraries: Libraries, parsed: ParsedDocument, key: string, number: nat, i: nat,
                   name: string, value: string)
    requires s.range.startLine >= 1 && ParsedAs(Toml, s.content, libraries, parsed)
    ensures CanonicalQueryKey(key) !in TomlNames(Lines(s.content), |Lines(s.content)|) ==>
      ClaimedMissing(key, number, parsed, s)
    ensures var lines := Lines(s.content);
      i < |lines| && TomlPair(lines[i], name, value) && Join(TableAt(lines, i) + [name]) == CanonicalQueryKey(key) ==>
        ClaimedAt(key, number, parsed, s, i + 1, value)
  {
    hide Lines, TomlPair, CanonicalQueryKey, ClaimedAt, ClaimedMissing, TableAt, TomlNames, TomlRoots, RootsAreNamed,
         Join, PairRecorded, RootRecorded, PathAt, ReadToml;
    var lines, path := Lines(s.content), CanonicalQueryKey(key);
    if path !in parsed.locations {
      MissingClaims(key, number, parsed, s);
    }
    if i < |lines| && TomlPair(lines[i], name, value) && Join(TableAt(lines, i) + [name]) == path {
      ReadAsWritten(lines, parsed.locations, parsed.values);
      assert HasPair(path, i + 1, lines[i], value, parsed.locations, parsed.values);
      LocatedClaims(key, number, parsed, s, i + 1, value);
    }
  }

  lemma AssignmentSource(content: string, i: nat)
    requires i < |YamlAssignments(content)|
    ensures var a := YamlAssignments(content)[i];
      1 <= a.line <= |Lines(content)| && a.source == LineText(content, a.line)
  {
    hide Lines, LineScan.Assignments;
    var lines := Lines(content);
    AssignmentLines(lines, |lines|, ':', true);
    assert YamlAssignments(content)[i] in YamlAssignments(content);
  }

  /** And of a YAML document and the paths along its indentation. */
  lemma YamlClaims(s: Snapshot, libraries: Libraries, parsed: ParsedDocument, key: string, number: nat, i: nat)
    requires s.range.startLine >= 1 && ParsedAs(Yaml, s.content, libraries, parsed)
    ensures var a := YamlAssignments(s.content);
      (forall n :: 0 <= n < |a| ==> LineScan.PathOf(a, n) != CanonicalQueryKey(key)) ==>
        ClaimedMissing(key, number, parsed, s)
    ensures var a := YamlAssignments(s.content);
      i < |a| && LineScan.PathOf(a, i) == CanonicalQueryKey(key) ==>
        ClaimedAt(key, number, parsed, s, a[i].line, a[i].value)
  {
    hide CanonicalQueryKey, ClaimedAt, ClaimedMissing, LineScan.PathOf, YamlAssignments;
    var a, path := YamlAssignments(s.content), CanonicalQueryKey(key);
    if path !in parsed.locations {
      MissingClaims(key, number, parsed, s);
    }
    if i < |a| && LineScan.PathOf(a, i) == path {
      assert LineScan.RecordedAt(a, i, parsed.locations, parsed.values);
      AssignmentSource(s.content, i);
      LocatedClaims(key, number, parsed, s, a[i].line, a[i].value);
    }
  }

  /** Of a JSON document, every key that the scanner sees; without keys below arrays, every key of the document. */
  lemma JsonClaims(s: Snapshot, libraries: Libraries, parsed: ParsedDocument, pre: string, open: string,
                   members: JsonTree.Members, post: string, key: string, number: nat, i: nat)
    requires s.range.startLine >= 1 && ParsedAs(Json, s.content, libraries, parsed)
    requires s.content == JsonTheorem.Document(pre, open, members, post)
    requires JsonTree.IsSpace(pre) && JsonTree.IsSpace(post)
    requires JsonTree.ValueOk(JsonTree.Object(open, members), libraries.decode)
    ensures var es := JsonTheorem.SeenIn(pre, open, members, libraries.decode);
      && ((forall e :: e in es ==> Join(e.components) != CanonicalQueryKey(key))
          ==> ClaimedMissing(key, number, parsed, s))
      && (i < |es| && Join(es[i].components) == CanonicalQueryKey(key) ==>
            es[i].at <= |s.content| && ClaimedAt(key, number, parsed, s, LineAt(s.content, es[i].at), es[i].value))
    ensures JsonTree.HiddenKeys(members) == 0 ==>
      JsonTheorem.SeenIn(pre, open, members, libraries.decode)
      == JsonTree.Entries(members, [], JsonTheorem.MembersOffset(pre, open), libraries.decode)
  {
    hide *;
    var es, path := JsonTheorem.SeenIn(pre, open, members, libraries.decode), CanonicalQueryKey(key);
    JsonTheorem.ScansWhatIsSeen(pre, open, members, post, libraries.decode);
    JsonParsed(s.content, libraries, parsed);
    var tables := JsonScan.Scan(s.content, 0, JsonScan.START, libraries.decode).value.tables;
    HeldKeys(s.content, tables, es, path, i);
    if path !in parsed.locations {
      MissingClaims(key, number, parsed, s);
    }
    if i < |es| && Join(es[i].components) == path {
      LocatedClaims(key, number, parsed, s, LineAt(s.content, es[i].at), es[i].value);
    }
    JsonTheorem.SeenInIs(pre, open, members, libraries.decode);
    if JsonTree.HiddenKeys(members) == 0 {
      JsonSeen.SeenIsEntries(members, [], 1, JsonTheorem.MembersOffset(pre, open), libraries.decode);
    }
  }

  lemma JsonParsed(content: string, libraries: Libraries, parsed: ParsedDocument)
    requires ParsedAs(Json, content, libraries, parsed)
    ensures var scan := JsonScan.Scan(content, 0, JsonScan.START, libraries.decode);
      scan.Ok? && parsed.locations == scan.value.tables.locations && parsed.values == scan.value.tables.values
  {
    hide JsonScan.Scan;
  }

  lemma HeldKeys(content: string, tables: JsonScan.Tables, es: seq<JsonTree.Entry>, path: string, i: nat)
    requires JsonTables.Inside(content, es) && JsonTables.Holds(content, tables, es)
    ensures path in tables.locations <==> exists e :: e in es && Join(e.components) == path
    ensures i < |es| ==> es[i].at <= |content|
    ensures i < |es| && Join(es[i].components) == path ==>
      && path in tables.locations
      && tables.locations[path] == Location(LineAt(content, es[i].at), LineText(content, LineAt(content, es[i].at)))
      && path in tables.values && tables.values[path] == es[i].value
  {
    hide Join, LineAt, LineText;
    assert i < |es| ==> es[i] in es;
  }

  // ---- Which claim answers which question ----

  lemma {:induction false} PresenceAt(keys: seq<string>, n: nat, parsed: ParsedDocument, s: Snapshot, i: nat)
    requires s.range.startLine >= 1 && i < |keys|
    ensures PresenceClaims(keys, n, parsed, s)[i] == PresenceClaim(keys[i], n + i + 1, parsed, s)
  {
    hide PresenceClaim;
    if i < |keys| - 1 {
      PresenceAt(keys[..|keys| - 1], n, parsed, s, i);
    }
  }

  lemma {:induction false} ValueAt(keys: seq<string>, n: nat, parsed: ParsedDocument, s: Snapshot, i: nat)
    requires s.range.startLine >= 1 && i < |keys|
    ensures ValueClaims(keys, n, parsed, s)[i] == ValueClaim(keys[i], n + i + 1, parsed, s)
  {
    hide ValueClaim;
    if i < |keys| - 1 {
      ValueAt(keys[..|keys| - 1], n, parsed, s, i);
    }
  }

  lemma {:induction false} RootAt(roots: seq<string>, locations: map<string, Location>, s: Snapshot, i: nat)
    requires s.range.startLine >= 1 && (forall k :: k in roots ==> k in locations) && i < |roots|
    ensures RootClaimsOf(roots, locations, s)[i] == OnLine(ROOT_KEY, i + 1, s, locations[roots[i]].line)
  {
    hide OnLine;
    if i < |roots| - 1 {
      RootAt(roots[..|roots| - 1], locations, s, i);
    }
  }

  lemma {:induction false} PresenceLineAt(keys: seq<string>, parsed: ParsedDocument, i: nat)
    requires i < |keys|
    ensures |PresenceAnswers(keys, parsed)| == |ValueAnswers(keys, parsed)| == |keys|
    ensures PresenceAnswers(keys, parsed)[i] == PresenceAnswer(keys[i], parsed)
    ensures ValueAnswers(keys, parsed)[i] == ValueAnswer(keys[i], parsed)
  {
    hide PresenceAnswer, ValueAnswer;
    PresenceCount(keys, parsed);
    PresenceCount(keys[..|keys| - 1], parsed);
    if i < |keys| - 1 {
      PresenceLineAt(keys[..|keys| - 1], parsed, i);
    }
  }

  /** The answer has one line for each claim, in the same order. */
  lemma AnswerInOrder(query: DocumentQuery, parsed: ParsedDocument, i: nat)
    ensures var answer := AnswerFor(query, parsed);
      var n, m := if query.rootKeys then |parsed.rootOrder| else 0, |query.presenceKeys|;
      && |answer| == n + m + |query.valueKeys|
      && (i < n ==> answer[i] == parsed.rootOrder[i])
      && (i < m ==> answer[n + i] == PresenceAnswer(query.presenceKeys[i], parsed))
      && (i < |query.valueKeys| ==> answer[n + m + i] == ValueAnswer(query.valueKeys[i], parsed))
  {
    hide PresenceAnswer, ValueAnswer, PresenceAnswers, ValueAnswers;
    PresenceCount(query.presenceKeys, parsed);
    PresenceCount(query.valueKeys, parsed);
    if i < |query.presenceKeys| {
      PresenceLineAt(query.presenceKeys, parsed, i);
    }
    if i < |query.valueKeys| {
      PresenceLineAt(query.valueKeys, parsed, i);
    }
  }

  /** Every root key, every presence and every value that was asked for has its own claim, in this order. */
  lemma ClaimsInOrder(query: DocumentQuery, parsed: ParsedDocument, s: Snapshot, i: nat)
    requires s.range.startLine >= 1 && RootsLocated(query, parsed)
    ensures var claims := ClaimsFor(query, parsed, s);
      var n, m := if query.rootKeys then |parsed.rootOrder| else 0, |query.presenceKeys|;
      && |claims| == n + m + |query.valueKeys|
      && (query.rootKeys && i < n ==>
            var at := s.range.startLine + parsed.locations[parsed.rootOrder[i]].line - 1;
            Cites(claims[i], "root-key-" + Decimal(i + 1), s, at, at))
      && (i < m ==> claims[n + i] == PresenceClaim(query.presenceKeys[i], n + i + 1, parsed, s))
      && (i < |query.valueKeys| ==>
            claims[n + m + i] == ValueClaim(query.valueKeys[i], n + m + i + 1, parsed, s))
  {
    hide OnLine, PresenceClaim, ValueClaim, RootClaimsOf, PresenceClaims, ValueClaims, Cites, ClaimId, Decimal;
    var n, m := if query.rootKeys then |parsed.rootOrder| else 0, |query.presenceKeys|;
    if query.rootKeys && i < n {
      RootAt(parsed.rootOrder, parsed.locations, s, i);
      Identifiers(i + 1);
      OnLineCites(ROOT_KEY, i + 1, s, parsed.locations[parsed.rootOrder[i]].line);
    }
    if i < m {
      PresenceAt(query.presenceKeys, n, parsed, s, i);
    }
    if i < |query.valueKeys| {
      ValueAt(query.valueKeys, n + m, parsed, s, i);
    }
  }
}
