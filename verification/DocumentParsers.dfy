/**
 The readers of JSON and YAML documents: what they accept and what they report. Every location they
 report is a line of the document, with that line's text.
 */
module DocumentParsers {
  import opened Wrappers
  import opened Text
  import opened Utf8
  import opened Documents
  import opened PatchText
  import JsonTree
  import JsonScan
  import LineScan

  // ---- JSON ----

  lemma {:induction false} LineInside(content: string, i: nat)
    requires i < |content|
    ensures 1 <= LineAt(content, i) <= |Lines(content)|
  {
    hide Newlines, SplitInclusive;
    LineCountIsLines(content);
    NewlinesMonotone(content, i, |content| - 1);
    NewlinesStep(content, |content| - 1);
    assert content[..|content|] == content;
  }

  /** The scanner's line counter never runs ahead, so every location it records is a line of the text. */
  ghost predicate Counting(content: string, i: nat, st: JsonScan.ScanState)
    requires i <= |content|
  {
    1 <= st.line <= LineAt(content, i) && AllLocated(content, st.tables.locations)
  }

  lemma LineGrows(content: string, i: nat, j: nat)
    requires i < j <= |content|
    ensures LineAt(content, i) + (if content[i] == '\n' then 1 else 0) <= LineAt(content, j)
  {
    NewlinesStep(content, i);
    NewlinesMonotone(content, i + 1, j);
  }

  lemma KeyStepCounts(content: string, i: nat, next: nat, valueStart: nat, key: string, st: JsonScan.ScanState,
                      decode: JsonTree.Decoder)
    requires i < next <= |content| && valueStart <= |content| && Counting(content, i, st)
    ensures var step := JsonScan.KeyStep(content, next, valueStart, key, st, decode);
      step.Ok? ==> Counting(content, next, step.value.1)
  {
    hide LineAt, Lines, JsonScan.ScalarPreview, JsonScan.Truncate, Join;
    LineGrows(content, i, next);
    LineInside(content, i);
  }

  lemma StepCounts(content: string, i: nat, st: JsonScan.ScanState, decode: JsonTree.Decoder)
    requires i < |content| && Counting(content, i, st)
    ensures var step := JsonScan.Step(content, i, st, decode);
      step.Ok? ==> Counting(content, step.value.0, step.value.1)
  {
    hide AllLocated, LineAt, JsonScan.StringAt, JsonScan.Truncate, JsonScan.SkipSpace, JsonScan.KeyStep;
    var step := JsonScan.Step(content, i, st, decode);
    if step.Ok? {
      LineGrows(content, i, step.value.0);
      if content[i] == '"' {
        var (key, next) := JsonScan.StringAt(content, i, decode).value;
        var cursor := JsonScan.SkipSpace(content, next);
        if cursor < |content| {
          KeyStepCounts(content, i, next, JsonScan.SkipSpace(content, cursor + 1), key, st, decode);
        }
      }
    }
  }

  lemma {:induction false} ScanCounts(content: string, i: nat, st: JsonScan.ScanState, decode: JsonTree.Decoder)
    requires i <= |content| && Counting(content, i, st)
    ensures var scan := JsonScan.Scan(content, i, st, decode);
      scan.Ok? ==> AllLocated(content, scan.value.tables.locations)
    decreases |content| - i
  {
    hide AllLocated, LineAt, JsonScan.Step;
    if i < |content| {
      StepCounts(content, i, st, decode);
      var step := JsonScan.Step(content, i, st, decode);
      if step.Ok? {
        ScanCounts(content, step.value.0, step.value.1, decode);
      }
    }
  }

  /** `parse_json`: a separate JSON parser decides first whether the text is a JSON object. */
  method ParseJson(content: string, isObject: bool, decode: JsonTree.Decoder)
      returns (r: Result<ParsedDocument, ParseError>)
    ensures var scan := JsonScan.Scan(content, 0, JsonScan.START, decode);
      if isObject && scan.Ok?
      then r == Ok(ParsedDocument(scan.value.roots, scan.value.tables.locations, scan.value.tables.values))
      else r == Err(Unreadable)
    ensures r.Ok? ==> AllLocated(content, r.value.locations)
  {
    assert Counting(content, 0, JsonScan.START);
    hide AllLocated, JsonScan.Scan;
    if !isObject {
      return Err(Unreadable);
    }
    var scanned := JsonScan.ScanJsonObject(content, decode);
    ScanCounts(content, 0, JsonScan.START, decode);
    match scanned
    case Err(_) => return Err(Unreadable);
    case Ok(tables) => return Ok(ParsedDocument(tables.0, tables.1, tables.2));
  }

  // ---- YAML ----

  lemma {:induction false} AssignmentLines(lines: seq<string>, n: nat, separator: char, yaml: bool)
    requires n <= |lines|
    ensures forall a :: a in LineScan.Assignments(lines, n, separator, yaml) ==>
      1 <= a.line <= n && a.source == lines[a.line - 1]
  {
    hide LineScan.ParseBody, LineScan.WithoutComment;
    if n > 0 {
      AssignmentLines(lines, n - 1, separator, yaml);
      BodyLine(lines[n - 1], LineScan.WithoutComment(lines[n - 1], yaml), n, separator);
    }
  }

  lemma BodyLine(raw: string, text: string, number: nat, separator: char)
    ensures var kind := LineScan.ParseBody(raw, text, number, separator);
      kind.Assigned? ==> kind.assignment.line == number && kind.assignment.source == raw
  {
    hide TrimStart, LineScan.FirstPlainOf, LineScan.UnquoteKey, Trim, LineScan.TrimQuotes, LineScan.Indent;
  }

  lemma RecordedIsLocated(content: string, separator: char, yaml: bool, locations: map<string, Location>,
                          values: map<string, string>)
    requires var lines := Lines(content);
      var a := LineScan.Assignments(lines, |lines|, separator, yaml);
      LineScan.Recorded(a, |a|, locations, values)
    ensures AllLocated(content, locations)
  {
    hide Lines, LineScan.Assignments, LineScan.PathOf;
    var lines := Lines(content);
    var a := LineScan.Assignments(lines, |lines|, separator, yaml);
    AssignmentLines(lines, |lines|, separator, yaml);
    forall p | p in locations ensures LocatedIn(content, locations[p]) {
      var i :| 0 <= i < |a| && LineScan.PathOf(a, i) == p;
      assert LineScan.RecordedAt(a, i, locations, values) && a[i] in a;
    }
  }

  /** `reject_duplicate_root_keys`: as many root keys as paths without a dot. */
  predicate RootsCounted(rootOrder: seq<string>, locations: map<string, Location>) {
    |(set path | path in locations && '.' !in path)| == |rootOrder|
  }

  /** The dot-free paths of a document's assignments. */
  ghost function RootPaths(a: seq<LineScan.Assignment>): set<string> {
    set i | 0 <= i < |a| && '.' !in LineScan.PathOf(a, i) :: LineScan.PathOf(a, i)
  }

  lemma RecordedRoots(a: seq<LineScan.Assignment>, locations: map<string, Location>, values: map<string, string>)
    requires LineScan.Recorded(a, |a|, locations, values)
    ensures (set path | path in locations && '.' !in path) == RootPaths(a)
  {
    hide LineScan.PathOf;
    forall p | p in locations && '.' !in p ensures p in RootPaths(a) {
      var i :| 0 <= i < |a| && LineScan.PathOf(a, i) == p;
    }
    forall p | p in RootPaths(a) ensures p in locations && '.' !in p {
      var i :| 0 <= i < |a| && '.' !in LineScan.PathOf(a, i) && LineScan.PathOf(a, i) == p;
      assert LineScan.RecordedAt(a, i, locations, values);
    }
  }

  /** The assignments of a YAML document. */
  ghost function YamlAssignments(content: string): seq<LineScan.Assignment> {
    LineScan.Assignments(Lines(content), |Lines(content)|, ':', true)
  }

  /** No key is rejected, no path repeats, and there are as many root paths as root keys. */
  ghost predicate YamlGood(content: string, rootKeys: seq<string>) {
    var a := YamlAssignments(content);
    && LineScan.NoneRejected(Lines(content), |Lines(content)|, ':', true) && LineScan.DistinctPaths(a, |a|)
    && |RootPaths(a)| == |rootKeys|
  }

  /** `parse_yaml`: a separate YAML parser lists the root keys. */
  method ParseYaml(content: string, rootKeys: Option<seq<string>>) returns (r: Result<ParsedDocument, ParseError>)
    ensures if rootKeys.Some? && YamlGood(content, rootKeys.value) then r.Ok? else r == Err(Unreadable)
    ensures r.Ok? ==>
      && rootKeys == Some(r.value.rootOrder)
      && LineScan.Recorded(YamlAssignments(content), |YamlAssignments(content)|, r.value.locations, r.value.values)
    ensures r.Ok? ==> AllLocated(content, r.value.locations)
  {
    hide AllLocated, LineScan.Recorded, LineScan.NoneRejected, LineScan.DistinctPaths, LineScan.Chain, LineScan.StackIs,
         LineScan.Increasing, LineScan.Assignments, Lines, RootPaths;
    if rootKeys.None? {
      return Err(Unreadable);
    }
    var scanned; ghost var stacks;
    scanned, stacks := LineScan.ScanIndentedAssignments(content, ':', true);
    if scanned.Err? {
      return Err(Unreadable);
    }
    RecordedIsLocated(content, ':', true, scanned.value.0, scanned.value.1);
    RecordedRoots(YamlAssignments(content), scanned.value.0, scanned.value.1);
    if !RootsCounted(rootKeys.value, scanned.value.0) {
      return Err(Unreadable);
    }
    return Ok(ParsedDocument(rootKeys.value, scanned.value.0, scanned.value.1));
  }
}
