/** The reader of TOML documents: what it accepts, where it finds each key, and when it panics. */
module Toml {
  import opened Wrappers
  import opened Text
  import opened Ordering
  import opened Documents
  import opened LineScan

  datatype TomlLine =
    | NoLine
    | BadLine
    | PanicLine
    | TableLine(parts: seq<string>)
    | PairLine(key: string, value: string)

  /** Every component unquoted, or the first error. */
  function UnquoteAll(parts: seq<string>): Result<seq<string>, ScanError> {
    if parts == [] then Ok([])
    else
      match UnquoteKey(parts[0])
      case Err(error) => Err(error)
      case Ok(first) =>
        match UnquoteAll(parts[1..])
        case Err(error) => Err(error)
        case Ok(rest) => Ok([first] + rest)
  }

  function TrimDoubleQuotes(s: string): string {
    if s == "" then ""
    else if s[0] == '"' then TrimDoubleQuotes(s[1..])
    else if s[|s| - 1] == '"' then TrimDoubleQuotes(s[..|s| - 1])
    else s
  }

  function ReadHeader(line: string): TomlLine
    requires line != ""
  {
    if line[|line| - 1] != ']' || StartsWith(line, "[[") || |line| < 2 then BadLine
    else
      var name := Trim(line[1..|line| - 1]);
      if name == "" then BadLine
      else
        match UnquoteAll(SplitDots(name))
        case Err(error) => if error == LoneQuote then PanicLine else BadLine
        case Ok(parts) => TableLine(parts)
  }

  function ReadAssignment(line: string): TomlLine {
    var separator := FirstPlainOf(line, '=', 0);
    if separator.None? then BadLine
    else
      match UnquoteKey(Trim(line[..separator.value]))
      case Err(error) => if error == LoneQuote then PanicLine else BadLine
      case Ok(key) => PairLine(key, TrimDoubleQuotes(Trim(line[separator.value + 1..])))
  }

  /** What one line of the document is. */
  function ReadToml(raw: string): TomlLine {
    var line := Trim(WithoutComment(raw, true));
    if line == "" then NoLine else if line[0] == '[' then ReadHeader(line) else ReadAssignment(line)
  }

  // ---- What a line says, on its text ----

  /** A key in front of the first plain `=`, and the value behind it. */
  ghost predicate TomlPair(raw: string, key: string, value: string) {
    var line := Trim(WithoutComment(raw, true));
    line != "" && line[0] != '[' && exists k: nat :: PairAt(line, key, value, k)
  }

  ghost predicate PairAt(line: string, key: string, value: string, k: nat) {
    FirstPlain(line, '=', k) && Unquotes(line[..k], key) && Stripped(Trim(line[k + 1..]), value, {'"'})
  }

  /** Between brackets, one name for each of the parts between the dots. */
  ghost predicate TomlTable(raw: string, parts: seq<string>) {
    var line := Trim(WithoutComment(raw, true));
    && |line| >= 2 && line[0] == '[' && line[1] != '[' && line[|line| - 1] == ']'
    && var name := Trim(line[1..|line| - 1]);
    && name != "" && |parts| == |SplitDots(name)|
    && forall i :: 0 <= i < |parts| ==> Unquotes(SplitDots(name)[i], parts[i])
  }

  lemma {:induction false} TrimDoubleQuotesStrips(s: string)
    ensures Stripped(s, TrimDoubleQuotes(s), {'"'})
    decreases |s|
  {
    hide Stripped;
    if s != "" && s[0] == '"' {
      TrimDoubleQuotesStrips(s[1..]);
      StrippedFirst(s, TrimDoubleQuotes(s[1..]), {'"'});
    } else if s != "" && s[|s| - 1] == '"' {
      TrimDoubleQuotesStrips(s[..|s| - 1]);
      StrippedLast(s, TrimDoubleQuotes(s[..|s| - 1]), {'"'});
    } else {
      StrippedNothing(s, {'"'});
    }
  }

  lemma PairAtIff(line: string, key: string, value: string)
    ensures ReadAssignment(line) == PairLine(key, value) <==> exists k: nat :: PairAt(line, key, value, k)
  {
    hide StateAt, PlainAt, FirstPlainOf, FirstPlain, Trim, TrimDoubleQuotes, UnquoteKey, Unquotes, Stripped;
    FirstPlainUnique(line, '=');
    FirstPlainOfIs(line, '=', 0);
    var position := FirstPlainOf(line, '=', 0);
    if position.Some? {
      var before, after := line[..position.value], line[position.value + 1..];
      SameUnquoted(before);
      UnquotesIff(before, key);
      TrimDoubleQuotesStrips(Trim(after));
      if Stripped(Trim(after), value, {'"'}) {
        StrippedOnce(Trim(after), value, TrimDoubleQuotes(Trim(after)), {'"'});
      }
      assert PairAt(line, key, value, position.value)
        <==> Unquotes(before, key) && Stripped(Trim(after), value, {'"'});
      assert forall k: nat :: PairAt(line, key, value, k) ==> k == position.value;
    }
  }

  /** The reader of a line and its text agree on pairs. */
  lemma TomlPairIff(raw: string, key: string, value: string)
    ensures ReadToml(raw) == PairLine(key, value) <==> TomlPair(raw, key, value)
  {
    hide WithoutComment, Trim, SplitDots, UnquoteAll, PairAt, ReadAssignment;
    PairAtIff(Trim(WithoutComment(raw, true)), key, value);
  }

  lemma {:induction false} UnquoteAllIff(parts: seq<string>, keys: seq<string>)
    ensures UnquoteAll(parts) == Ok(keys)
      <==> |keys| == |parts| && forall i :: 0 <= i < |parts| ==> Unquotes(parts[i], keys[i])
    decreases |parts|
  {
    hide UnquoteKey, Unquotes;
    if parts != [] {
      if keys != [] {
        UnquotesIff(parts[0], keys[0]);
        UnquoteAllIff(parts[1..], keys[1..]);
        assert keys == [keys[0]] + keys[1..];
        if |parts| == |keys| {
          UnquoteTail(parts, keys);
        }
      }
    }
  }

  lemma UnquoteTail(parts: seq<string>, keys: seq<string>)
    requires parts != [] && |parts| == |keys|
    ensures (forall i :: 0 <= i < |parts| ==> Unquotes(parts[i], keys[i])) <==>
      && Unquotes(parts[0], keys[0])
      && forall i :: 0 <= i < |parts[1..]| ==> Unquotes(parts[1..][i], keys[1..][i])
  {
    hide Unquotes;
    if Unquotes(parts[0], keys[0]) && forall i :: 0 <= i < |parts[1..]| ==> Unquotes(parts[1..][i], keys[1..][i]) {
      forall i | 0 <= i < |parts| ensures Unquotes(parts[i], keys[i]) {
        assert i > 0 ==> parts[1..][i - 1] == parts[i] && keys[1..][i - 1] == keys[i];
      }
    }
  }

  /** And on tables. */
  lemma TomlTableIff(raw: string, parts: seq<string>)
    ensures ReadToml(raw) == TableLine(parts) <==> TomlTable(raw, parts)
  {
    hide WithoutComment, Trim, SplitDots, UnquoteAll, ReadAssignment, Unquotes, StartsWith;
    var line := Trim(WithoutComment(raw, true));
    AssignmentIsNoTable(line);
    if |line| >= 2 && line[0] == '[' {
      TwoBrackets(line);
      UnquoteAllIff(SplitDots(Trim(line[1..|line| - 1])), parts);
    }
  }

  lemma AssignmentIsNoTable(line: string)
    ensures !ReadAssignment(line).TableLine?
  {
    hide FirstPlainOf, UnquoteKey, Trim, TrimDoubleQuotes;
  }

  // ---- Which lines panic ----

  predicate IsLoneQuote(s: string) {
    |s| == 1 && IsQuote(s[0])
  }

  /** A component that is a key: neither empty, nor a pair of quotes, nor half of one. */
  predicate GoodComponent(s: string) {
    var t := Trim(s);
    t != "" && !IsLoneQuote(t) && !(|t| == 2 && IsQuote(t[0]) && t[1] == t[0])
  }

  /** A table header one of whose dotted components is a lone quote, with good components before it. */
  ghost predicate LoneQuoteHeader(raw: string) {
    HasLoneQuote(Trim(WithoutComment(raw, true)))
  }

  ghost predicate HasLoneQuote(line: string) {
    && |line| >= 2 && line[0] == '[' && line[|line| - 1] == ']' && line[1] != '['
    && var parts := SplitDots(Trim(line[1..|line| - 1]));
    exists c :: 0 <= c < |parts| && LoneQuoteAt(parts, c)
  }

  ghost predicate LoneQuoteAt(parts: seq<string>, c: nat)
    requires c < |parts|
  {
    IsLoneQuote(Trim(parts[c])) && forall d :: 0 <= d < c ==> GoodComponent(parts[d])
  }

  lemma UnquoteCases(s: string)
    ensures UnquoteKey(s) == Err(LoneQuote) <==> IsLoneQuote(Trim(s))
    ensures UnquoteKey(s).Ok? <==> GoodComponent(s)
  {
    hide Trim;
  }

  lemma {:induction false} UnquoteAllPanics(parts: seq<string>)
    ensures UnquoteAll(parts) == Err(LoneQuote) <==> exists c :: 0 <= c < |parts| && LoneQuoteAt(parts, c)
  {
    hide UnquoteKey, IsLoneQuote, GoodComponent, Trim;
    if parts != [] {
      var rest := parts[1..];
      UnquoteCases(parts[0]);
      UnquoteAllPanics(rest);
      if GoodComponent(parts[0]) {
        forall c | 0 <= c < |rest| ensures LoneQuoteAt(rest, c) <==> LoneQuoteAt(parts, c + 1) {
          if LoneQuoteAt(rest, c) {
            forall d | 0 <= d < c + 1 ensures GoodComponent(parts[d]) {
              assert d > 0 ==> GoodComponent(rest[d - 1]);
            }
          }
          if LoneQuoteAt(parts, c + 1) {
            forall d | 0 <= d < c ensures GoodComponent(rest[d]) {
              assert GoodComponent(parts[d + 1]);
            }
          }
        }
        GoodIsNoLoneQuote(parts[0]);
        if c: nat :| c < |rest| && LoneQuoteAt(rest, c) {
          assert LoneQuoteAt(parts, c + 1);
        }
        if c: nat :| c < |parts| && LoneQuoteAt(parts, c) {
          assert c > 0 && LoneQuoteAt(rest, c - 1);
        }
      } else {
        assert forall c :: 0 < c < |parts| ==> !LoneQuoteAt(parts, c);
        assert LoneQuoteAt(parts, 0) <==> IsLoneQuote(Trim(parts[0]));
      }
    }
  }

  lemma GoodIsNoLoneQuote(s: string)
    requires GoodComponent(s)
    ensures !IsLoneQuote(Trim(s))
  {
  }

  /** An assignment never panics: an opening quote would hide the separator. */
  lemma AssignmentsDoNotPanic(line: string)
    requires line != "" && !IsWhitespace(line[0])
    ensures !ReadAssignment(line).PanicLine?
  {
    hide Trim, UnquoteKey, FirstPlainOf, TrimDoubleQuotes, PlainAt;
    FirstPlainOfIs(line, '=', 0);
    var k := FirstPlainOf(line, '=', 0);
    if k.Some? {
      NoLoneQuoteKey(line, '=', k.value);
    }
  }

  lemma HeaderPanics(line: string)
    requires line != "" && line[0] == '['
    ensures ReadHeader(line).PanicLine? <==> HasLoneQuote(line)
  {
    hide Trim, SplitDots, LoneQuoteAt, UnquoteAll, StartsWith;
    if |line| >= 2 {
      NothingPanics();
      TwoBrackets(line);
      var name := Trim(line[1..|line| - 1]);
      UnquoteAllPanics(SplitDots(name));
      assert name == "" ==> forall c :: 0 <= c < |SplitDots(name)| ==> !LoneQuoteAt(SplitDots(name), c);
    }
  }

  lemma TwoBrackets(line: string)
    requires |line| >= 2 && line[0] == '['
    ensures StartsWith(line, "[[") <==> line[1] == '['
  {
    assert line[..2] == [line[0], line[1]];
  }

  lemma NothingPanics()
    ensures SplitDots("") == [""] && !LoneQuoteAt([""], 0)
  {
    assert Find("", '.', 0).None?;
  }

  /** Exactly the headers with a lone quote panic. */
  lemma TomlPanicsIff(raw: string)
    ensures ReadToml(raw).PanicLine? <==> LoneQuoteHeader(raw)
  {
    hide WithoutComment, Trim, ReadHeader, ReadAssignment, SplitDots, LoneQuoteAt;
    var text := WithoutComment(raw, true);
    var line := Trim(text);
    TrimEnds(text);
    if line != "" {
      if line[0] == '[' {
        HeaderPanics(line);
      } else {
        AssignmentsDoNotPanic(line);
      }
    }
  }

  // ---- The document ----

  /** The components of the table that line `n` stands in. */
  function TableAt(lines: seq<string>, n: nat): seq<string>
    requires n <= |lines|
  {
    if n == 0 then []
    else
      match ReadToml(lines[n - 1])
      case TableLine(parts) => parts
      case _ => TableAt(lines, n - 1)
  }

  /** The table of a line is that of the last header above it. */
  lemma {:induction false} TableAbove(lines: seq<string>, h: nat, n: nat, parts: seq<string>)
    requires h < n <= |lines| && TomlTable(lines[h], parts)
    requires forall i, other :: h < i < n ==> !TomlTable(lines[i], other)
    ensures TableAt(lines, n) == parts
  {
    hide ReadToml, TomlTable;
    TomlTableIff(lines[h], parts);
    if h < n - 1 {
      TableAbove(lines, h, n - 1, parts);
      NoTable(lines[n - 1]);
    }
  }

  lemma {:induction false} NoTableAbove(lines: seq<string>, n: nat)
    requires n <= |lines|
    requires forall i, other :: 0 <= i < n ==> !TomlTable(lines[i], other)
    ensures TableAt(lines, n) == []
  {
    hide ReadToml, TomlTable;
    if n > 0 {
      NoTableAbove(lines, n - 1);
      NoTable(lines[n - 1]);
    }
  }

  lemma NoTable(raw: string)
    requires forall other :: !TomlTable(raw, other)
    ensures !ReadToml(raw).TableLine?
  {
    hide ReadToml, TomlTable;
    if ReadToml(raw).TableLine? {
      TomlTableIff(raw, ReadToml(raw).parts);
    }
  }

  function KeyOf(line: TomlLine): string {
    if line.PairLine? then line.key else ""
  }

  function ValueOf(line: TomlLine): string {
    if line.PairLine? then line.value else ""
  }

  function RootOf(line: TomlLine): string {
    if line.TableLine? && line.parts != [] then line.parts[0] else ""
  }

  /** The dotted path of the assignment on line `i`. */
  function PathAt(lines: seq<string>, i: nat): string
    requires i < |lines|
  {
    Join(TableAt(lines, i) + [KeyOf(ReadToml(lines[i]))])
  }

  /** The root keys of the first `n` lines, each where it comes first. */
  function TomlRoots(lines: seq<string>, n: nat): seq<string>
    requires n <= |lines|
  {
    if n == 0 then []
    else
      var roots, line := TomlRoots(lines, n - 1), ReadToml(lines[n - 1]);
      match line
      case TableLine(_) => if RootOf(line) in roots then roots else roots + [RootOf(line)]
      case PairLine(key, _) => if TableAt(lines, n - 1) == [] && key !in roots then roots + [key] else roots
      case _ => roots
  }

  /** A table on line `i` whose root key was not there before. */
  ghost predicate OpensRoot(lines: seq<string>, i: nat) {
    && i < |lines| && ReadToml(lines[i]).TableLine?
    && RootOf(ReadToml(lines[i])) !in TomlRoots(lines, i)
  }

  /** The names that the first `n` lines give a location. */
  function TomlNames(lines: seq<string>, n: nat): set<string>
    requires n <= |lines|
  {
    if n == 0 then {}
    else
      var names, line := TomlNames(lines, n - 1), ReadToml(lines[n - 1]);
      match line
      case TableLine(_) => names + {RootOf(line)}
      case PairLine(_, _) => names + {PathAt(lines, n - 1)}
      case _ => names
  }

  ghost predicate PairNamed(lines: seq<string>, i: nat, key: string, value: string, name: string) {
    i < |lines| && TomlPair(lines[i], key, value) && Join(TableAt(lines, i) + [key]) == name
  }

  ghost predicate TableNamed(lines: seq<string>, i: nat, parts: seq<string>, name: string) {
    i < |lines| && TomlTable(lines[i], parts) && parts != [] && parts[0] == name
  }

  lemma NamesOfLine(lines: seq<string>, i: nat, name: string)
    requires i < |lines|
    ensures name in TomlNames(lines, i + 1) <==>
      || name in TomlNames(lines, i)
      || (exists key, value :: PairNamed(lines, i, key, value, name))
      || (exists parts :: TableNamed(lines, i, parts, name))
  {
    hide ReadToml, TomlPair, TomlTable, Join, TableAt;
    var line := ReadToml(lines[i]);
    if line.PairLine? {
      TomlPairIff(lines[i], line.key, line.value);
      assert PathAt(lines, i) == name <==> PairNamed(lines, i, line.key, line.value, name);
    } else if line.TableLine? {
      TomlTableIff(lines[i], line.parts);
      TablesHaveRoots(lines[i]);
      assert RootOf(line) == name <==> TableNamed(lines, i, line.parts, name);
    }
    forall key, value | PairNamed(lines, i, key, value, name) ensures line == PairLine(key, value) {
      TomlPairIff(lines[i], key, value);
    }
    forall parts | TableNamed(lines, i, parts, name) ensures line == TableLine(parts) {
      TomlTableIff(lines[i], parts);
    }
  }

  /** They are the dotted paths of the pairs, and the first parts of the tables' names. */
  lemma {:induction false} TomlNamesIff(lines: seq<string>, n: nat, name: string)
    requires n <= |lines|
    ensures name in TomlNames(lines, n) <==>
      || (exists i: nat, key, value :: i < n && PairNamed(lines, i, key, value, name))
      || (exists i: nat, parts :: i < n && TableNamed(lines, i, parts, name))
  {
    hide PairNamed, TableNamed, ReadToml, PathAt, RootOf;
    if n > 0 {
      TomlNamesIff(lines, n - 1, name);
      NamesOfLine(lines, n - 1, name);
      NamesUpTo(lines, n - 1, name);
    }
  }

  lemma NamesUpTo(lines: seq<string>, n: nat, name: string)
    ensures (exists i: nat, key, value :: i < n + 1 && PairNamed(lines, i, key, value, name)) <==>
      || (exists i: nat, key, value :: i < n && PairNamed(lines, i, key, value, name))
      || (exists key, value :: PairNamed(lines, n, key, value, name))
    ensures (exists i: nat, parts :: i < n + 1 && TableNamed(lines, i, parts, name)) <==>
      || (exists i: nat, parts :: i < n && TableNamed(lines, i, parts, name))
      || (exists parts :: TableNamed(lines, n, parts, name))
  {
    hide PairNamed, TableNamed;
  }

  /** Each of the first `n` lines is blank, a table, or an assignment to a path not yet taken. */
  ghost predicate TomlGood(lines: seq<string>, n: nat) {
    && n <= |lines|
    && forall i :: 0 <= i < n ==> GoodTomlLine(lines, i)
  }

  ghost predicate GoodTomlLine(lines: seq<string>, i: nat)
    requires i < |lines|
  {
    && !ReadToml(lines[i]).BadLine? && !ReadToml(lines[i]).PanicLine?
    && (ReadToml(lines[i]).PairLine? ==> PathAt(lines, i) !in TomlNames(lines, i))
  }

  /** What stops the reader at line `i`. */
  function TomlError(lines: seq<string>, i: nat): ParseError
    requires i < |lines|
  {
    match ReadToml(lines[i])
    case PanicLine => SlicePanic
    case PairLine(_, _) => Duplicate(PathAt(lines, i))
    case _ => Malformed(i + 1)
  }

  datatype TomlState = TomlState(
    rootOrder: seq<string>,
    locations: map<string, Location>,
    values: map<string, string>,
    table: seq<string>)

  /** The assignment on line `i` is recorded with its own line and value. */
  ghost predicate PairRecorded(lines: seq<string>, i: nat, locations: map<string, Location>,
                               values: map<string, string>) {
    && i < |lines| && ReadToml(lines[i]).PairLine?
    && var path := PathAt(lines, i);
    && path in locations && locations[path] == Location(i + 1, lines[i])
    && path in values && values[path] == ValueOf(ReadToml(lines[i]))
  }

  ghost predicate RootRecorded(lines: seq<string>, i: nat, locations: map<string, Location>) {
    && OpensRoot(lines, i)
    && var root := RootOf(ReadToml(lines[i]));
    root in locations && locations[root] == Location(i + 1, lines[i])
  }

  /**
   Every assignment has its own line and value, every other name is a root key on the line of its first
   table, and nothing else is recorded.
   */
  ghost predicate TomlRead(lines: seq<string>, n: nat, locations: map<string, Location>, values: map<string, string>) {
    && n <= |lines|
    && locations.Keys == TomlNames(lines, n)
    && (forall i :: 0 <= i < n && ReadToml(lines[i]).PairLine? ==> PairRecorded(lines, i, locations, values))
    && (forall k ::
        k in values ==> exists i :: 0 <= i < n && PairRecorded(lines, i, locations, values) && PathAt(lines, i) == k)
    && (forall k :: k in locations && k !in values ==>
          exists i :: 0 <= i < n && RootRecorded(lines, i, locations) && RootOf(ReadToml(lines[i])) == k)
  }

  /** Every line that says so has its pair under its dotted path, with its own line and value. */
  ghost predicate AsWritten(lines: seq<string>, locations: map<string, Location>, values: map<string, string>) {
    forall i: nat, key, value :: i < |lines| && TomlPair(lines[i], key, value) ==>
      HasPair(Join(TableAt(lines, i) + [key]), i + 1, lines[i], value, locations, values)
  }

  ghost predicate HasPair(path: string, line: nat, source: string, value: string, locations: map<string, Location>,
                          values: map<string, string>) {
    && path in locations && locations[path] == Location(line, source)
    && path in values && values[path] == value
  }

  lemma ReadAsWritten(lines: seq<string>, locations: map<string, Location>, values: map<string, string>)
    requires TomlRead(lines, |lines|, locations, values)
    ensures AsWritten(lines, locations, values)
  {
    hide ReadToml, TomlPair, TableAt, Join;
    forall i: nat, key, value | i < |lines| && TomlPair(lines[i], key, value)
      ensures HasPair(Join(TableAt(lines, i) + [key]), i + 1, lines[i], value, locations, values)
    {
      TomlPairIff(lines[i], key, value);
      assert PairRecorded(lines, i, locations, values);
    }
  }

  /** Names without a dot are root keys. */
  ghost predicate RootsAreNamed(locations: map<string, Location>, roots: seq<string>) {
    && (forall k :: k in locations && '.' !in k ==> k in roots)
    && (forall k :: k in roots ==> k in locations)
  }

  ghost predicate Reading(lines: seq<string>, n: nat, st: TomlState) {
    && TomlGood(lines, n) && TomlRead(lines, n, st.locations, st.values)
    && st.rootOrder == TomlRoots(lines, n) && st.table == TableAt(lines, n)
    && RootsAreNamed(st.locations, st.rootOrder)
  }

  // ---- One line more ----

  lemma UnquoteDotFree(s: string)
    requires '.' !in s && UnquoteKey(s).Ok?
    ensures '.' !in UnquoteKey(s).value
  {
    var t := Trim(s);
    var u := TrimStart(s);
    assert forall c :: c in u ==> c in s;
    assert t == u[..|t|];
  }

  lemma {:induction false} UnquoteAllDotFree(parts: seq<string>)
    requires DotFree(parts) && UnquoteAll(parts).Ok?
    ensures |UnquoteAll(parts).value| == |parts| && DotFree(UnquoteAll(parts).value)
  {
    hide UnquoteKey;
    if parts != [] {
      assert parts[0] in parts && forall p :: p in parts[1..] ==> p in parts;
      UnquoteDotFree(parts[0]);
      UnquoteAllDotFree(parts[1..]);
    }
  }

  /** A table has components, and its root key has no dot. */
  lemma TablesHaveRoots(raw: string)
    requires ReadToml(raw).TableLine?
    ensures ReadToml(raw).parts != [] && '.' !in RootOf(ReadToml(raw))
  {
    hide WithoutComment, Trim, SplitDots, UnquoteAll, UnquoteKey, FirstPlainOf, TrimDoubleQuotes;
    var line := Trim(WithoutComment(raw, true));
    var parts := SplitDots(Trim(line[1..|line| - 1]));
    UnquoteAllDotFree(parts);
    assert UnquoteAll(parts).value[0] in UnquoteAll(parts).value;
  }

  lemma JoinHasDot(parts: seq<string>)
    requires |parts| >= 2
    ensures '.' in Join(parts)
  {
    assert Join(parts)[|parts[0]|] == '.';
  }

  lemma JoinOne(key: string)
    ensures Join([key]) == key
  {
  }

  /** Outside tables the path is the key; inside it has a dot. */
  lemma PathShape(lines: seq<string>, n: nat)
    requires n < |lines|
    ensures if TableAt(lines, n) == [] then PathAt(lines, n) == KeyOf(ReadToml(lines[n])) else '.' in PathAt(lines, n)
  {
    hide ReadToml, Join, TableAt;
    var table, key := TableAt(lines, n), KeyOf(ReadToml(lines[n]));
    if table == [] {
      assert [] + [key] == [key];
      JoinOne(key);
    } else {
      JoinHasDot(table + [key]);
    }
  }

  lemma PairReads(lines: seq<string>, n: nat, st: TomlState)
    requires n < |lines| && Reading(lines, n, st) && ReadToml(lines[n]).PairLine?
    requires PathAt(lines, n) !in st.locations
    ensures var pair, path := ReadToml(lines[n]), PathAt(lines, n);
      Reading(lines, n + 1, TomlState(
        if st.table == [] && pair.key !in st.rootOrder then st.rootOrder + [pair.key] else st.rootOrder,
        st.locations[path := Location(n + 1, lines[n])], st.values[path := pair.value], st.table))
  {
    hide ReadToml, PathAt, OpensRoot;
    var pair, path := ReadToml(lines[n]), PathAt(lines, n);
    var l, v := st.locations[path := Location(n + 1, lines[n])], st.values[path := pair.value];
    var roots := if st.table == [] && pair.key !in st.rootOrder then st.rootOrder + [pair.key] else st.rootOrder;
    KeepsRead(lines, n, st, l, v);
    PathShape(lines, n);
    assert PairRecorded(lines, n, l, v);
    assert TomlGood(lines, n + 1);
    assert TomlRead(lines, n + 1, l, v);
  }

  /** What was recorded stays when a new path is added. */
  lemma KeepsRead(lines: seq<string>, n: nat, st: TomlState, l: map<string, Location>, v: map<string, string>)
    requires n < |lines| && TomlRead(lines, n, st.locations, st.values)
    requires forall k :: k in st.locations ==> k in l && l[k] == st.locations[k]
    requires forall k :: k in st.values ==> k in v && v[k] == st.values[k]
    ensures forall i :: 0 <= i < n && ReadToml(lines[i]).PairLine? ==> PairRecorded(lines, i, l, v)
    ensures forall k :: k in st.values ==>
      exists i :: 0 <= i < n && PairRecorded(lines, i, l, v) && PathAt(lines, i) == k
    ensures forall k :: k in st.locations && k !in st.values ==>
      exists i :: 0 <= i < n && RootRecorded(lines, i, l) && RootOf(ReadToml(lines[i])) == k
  {
    hide ReadToml, PathAt, OpensRoot, TomlNames;
    forall i | 0 <= i < n && ReadToml(lines[i]).PairLine? ensures PairRecorded(lines, i, l, v) {
      assert PairRecorded(lines, i, st.locations, st.values);
    }
    forall k | k in st.values ensures exists i :: 0 <= i < n && PairRecorded(lines, i, l, v) && PathAt(lines, i) == k {
      var i :| 0 <= i < n && PairRecorded(lines, i, st.locations, st.values) && PathAt(lines, i) == k;
      assert PairRecorded(lines, i, l, v);
    }
    forall k | k in st.locations && k !in st.values
      ensures exists i :: 0 <= i < n && RootRecorded(lines, i, l) && RootOf(ReadToml(lines[i])) == k
    {
      var i :| 0 <= i < n && RootRecorded(lines, i, st.locations) && RootOf(ReadToml(lines[i])) == k;
      assert RootRecorded(lines, i, l);
    }
  }

  lemma KnownTableReads(lines: seq<string>, n: nat, st: TomlState)
    requires n < |lines| && Reading(lines, n, st) && ReadToml(lines[n]).TableLine?
    requires RootOf(ReadToml(lines[n])) in st.rootOrder
    ensures Reading(lines, n + 1, st.(table := ReadToml(lines[n]).parts))
  {
    hide ReadToml, PathAt, RootOf, OpensRoot;
    KeepsRead(lines, n, st, st.locations, st.values);
    assert st.locations.Keys == TomlNames(lines, n + 1);
    assert TomlGood(lines, n + 1);
    assert TomlRead(lines, n + 1, st.locations, st.values);
  }

  lemma NewTableReads(lines: seq<string>, n: nat, st: TomlState)
    requires n < |lines| && Reading(lines, n, st) && ReadToml(lines[n]).TableLine?
    requires RootOf(ReadToml(lines[n])) !in st.rootOrder
    ensures var parts, root := ReadToml(lines[n]).parts, RootOf(ReadToml(lines[n]));
      Reading(lines, n + 1,
              TomlState(st.rootOrder + [root], st.locations[root := Location(n + 1, lines[n])], st.values, parts))
  {
    hide *;
    TablesHaveRoots(lines[n]);
    var root := RootOf(ReadToml(lines[n]));
    var l := st.locations[root := Location(n + 1, lines[n])];
    NewRoot(lines, n, st, l);
    NewRootRead(lines, n, st, l, root);
    ReadsTable(lines, n, TomlState(st.rootOrder + [root], l, st.values, ReadToml(lines[n]).parts));
  }

  /** A root key that is not listed has no location yet. */
  lemma NewRoot(lines: seq<string>, n: nat, st: TomlState, l: map<string, Location>)
    requires n < |lines| && Reading(lines, n, st) && ReadToml(lines[n]).TableLine?
    requires '.' !in RootOf(ReadToml(lines[n])) && RootOf(ReadToml(lines[n])) !in st.rootOrder
    requires l == st.locations[RootOf(ReadToml(lines[n])) := Location(n + 1, lines[n])]
    ensures var root := RootOf(ReadToml(lines[n]));
      && root !in st.locations && RootRecorded(lines, n, l)
      && RootsAreNamed(l, st.rootOrder + [root])
    ensures TomlGood(lines, n + 1) && TomlRead(lines, n, st.locations, st.values)
    ensures TomlRoots(lines, n + 1) == st.rootOrder + [RootOf(ReadToml(lines[n]))]
    ensures l.Keys == TomlNames(lines, n + 1)
  {
    hide ReadToml, PathAt, RootOf, TomlRead;
    NamesSoFar(lines, n, st);
    assert GoodTomlLine(lines, n);
  }

  lemma NamesSoFar(lines: seq<string>, n: nat, st: TomlState)
    requires Reading(lines, n, st)
    ensures st.locations.Keys == TomlNames(lines, n)
  {
    hide ReadToml, PathAt, RootOf, PairRecorded, RootRecorded, TomlGood, TomlRoots, TomlNames;
  }

  lemma ReadsTable(lines: seq<string>, n: nat, st: TomlState)
    requires n < |lines| && ReadToml(lines[n]).TableLine? && st.table == ReadToml(lines[n]).parts
    requires TomlGood(lines, n + 1) && TomlRead(lines, n + 1, st.locations, st.values)
    requires st.rootOrder == TomlRoots(lines, n + 1) && RootsAreNamed(st.locations, st.rootOrder)
    ensures Reading(lines, n + 1, st)
  {
    hide ReadToml, TomlGood, TomlRead, TomlRoots, RootsAreNamed;
  }

  lemma NewRootRead(lines: seq<string>, n: nat, st: TomlState, l: map<string, Location>, root: string)
    requires n < |lines| && TomlRead(lines, n, st.locations, st.values) && root !in st.locations
    requires ReadToml(lines[n]).TableLine? && root == RootOf(ReadToml(lines[n]))
    requires l == st.locations[root := Location(n + 1, lines[n])] && RootRecorded(lines, n, l)
    requires l.Keys == TomlNames(lines, n + 1)
    ensures TomlRead(lines, n + 1, l, st.values)
  {
    hide ReadToml, PathAt, RootOf, OpensRoot, TomlNames;
    KeepsRead(lines, n, st, l, st.values);
  }

  lemma BlankReads(lines: seq<string>, n: nat, st: TomlState)
    requires n < |lines| && Reading(lines, n, st) && ReadToml(lines[n]).NoLine?
    ensures Reading(lines, n + 1, st)
  {
    hide ReadToml, PathAt, RootOf, OpensRoot;
    KeepsRead(lines, n, st, st.locations, st.values);
    assert TomlGood(lines, n + 1);
    assert TomlRead(lines, n + 1, st.locations, st.values);
  }

  // ---- The reader ----

  method ReadTomlAssignment(line: string) returns (t: TomlLine)
    ensures t == ReadAssignment(line)
  {
    hide PlainAt, FirstPlainOf, UnquoteKey, Trim, TrimDoubleQuotes;
    FirstPlainUnique(line, '=');
    var separator := FindUnquoted(line, '=');
    if separator.None? {
      return BadLine;
    }
    var key := UnquoteKey(Trim(line[..separator.value]));
    if key.Err? {
      return if key.error == LoneQuote then PanicLine else BadLine;
    }
    return PairLine(key.value, TrimDoubleQuotes(Trim(line[separator.value + 1..])));
  }

  /** One line, with the scanners that the reader uses. */
  method ReadTomlLine(raw: string) returns (t: TomlLine)
    ensures t == ReadToml(raw)
  {
    hide PlainAt, WithoutComment, ReadHeader, ReadAssignment, Trim;
    var uncommented := StripComment(raw, '#');
    CommentAgrees(raw, uncommented);
    var line := Trim(uncommented);
    if line == "" {
      return NoLine;
    }
    if line[0] == '[' {
      return ReadHeader(line);
    }
    t := ReadTomlAssignment(line);
  }

  /** The first line that is not good stops the reader. */
  ghost predicate StopsAt(lines: seq<string>, i: nat) {
    TomlGood(lines, i) && i < |lines| && !GoodTomlLine(lines, i)
  }

  lemma OneStop(lines: seq<string>, i: nat)
    requires StopsAt(lines, i)
    ensures !TomlGood(lines, |lines|) && forall j: nat :: StopsAt(lines, j) ==> j == i
  {
    hide GoodTomlLine;
  }

  /** A header with a lone quote behind good lines alone. */
  ghost predicate TomlPanic(lines: seq<string>, i: nat) {
    TomlGood(lines, i) && i < |lines| && LoneQuoteHeader(lines[i])
  }

  lemma TomlPanicIsStop(lines: seq<string>, i: nat)
    ensures TomlPanic(lines, i) <==> StopsAt(lines, i) && TomlError(lines, i) == SlicePanic
  {
    hide ReadToml, LoneQuoteHeader, TomlNames;
    if i < |lines| {
      TomlPanicsIff(lines[i]);
    }
  }

  method ParseToml(content: string) returns (r: Result<ParsedDocument, ParseError>)
    ensures r.Ok? <==> TomlGood(Lines(content), |Lines(content)|)
    ensures r.Ok? ==>
      && TomlRead(Lines(content), |Lines(content)|, r.value.locations, r.value.values)
      && r.value.rootOrder == TomlRoots(Lines(content), |Lines(content)|)
      && RootsAreNamed(r.value.locations, r.value.rootOrder)
      && AsWritten(Lines(content), r.value.locations, r.value.values)
    ensures r.Err? ==> exists i: nat :: StopsAt(Lines(content), i) && r.error == TomlError(Lines(content), i)
    ensures r == Err(SlicePanic) <==> exists i: nat :: TomlPanic(Lines(content), i)
  {
    hide Lines, Reading, ReadToml, TomlGood, TomlRead, StopsAt, TomlPanic, AsWritten;
    var st := TomlState([], map[], map[], []);
    var lines := Lines(content);
    ReadingStarts(lines);
    for index := 0 to |lines|
      invariant Reading(lines, index, st)
    {
      var line := ReadTomlLine(lines[index]);
      match line {
        case NoLine => BlankReads(lines, index, st);
        case TableLine(parts) =>
          TablesHaveRoots(lines[index]);
          if parts[0] in st.rootOrder {
            KnownTableReads(lines, index, st);
            st := st.(table := parts);
          } else {
            NewTableReads(lines, index, st);
            st := TomlState(
              st.rootOrder + [parts[0]], st.locations[parts[0] := Location(index + 1, lines[index])], st.values, parts);
          }
        case PairLine(key, value) =>
          var path := Join(st.table + [key]);
          PathIs(lines, index, st);
          if path in st.locations {
            Stopped(lines, index, st);
            return Err(Duplicate(path));
          }
          PairReads(lines, index, st);
          st := TomlState(
            if st.table == [] && key !in st.rootOrder then st.rootOrder + [key] else st.rootOrder,
            st.locations[path := Location(index + 1, lines[index])], st.values[path := value], st.table);
        case BadLine =>
          Stopped(lines, index, st);
          return Err(Malformed(index + 1));
        case PanicLine =>
          Stopped(lines, index, st);
          return Err(SlicePanic);
      }
    }
    Finished(lines, st);
    ReadAsWritten(lines, st.locations, st.values);
    return Ok(ParsedDocument(st.rootOrder, st.locations, st.values));
  }

  lemma ReadingStarts(lines: seq<string>)
    ensures Reading(lines, 0, TomlState([], map[], map[], []))
  {
  }

  lemma PathIs(lines: seq<string>, n: nat, st: TomlState)
    requires n < |lines| && Reading(lines, n, st)
    ensures PathAt(lines, n) == Join(st.table + [KeyOf(ReadToml(lines[n]))])
    ensures st.locations.Keys == TomlNames(lines, n)
  {
    hide Join, ReadToml, TomlGood;
  }

  lemma Stopped(lines: seq<string>, n: nat, st: TomlState)
    requires n < |lines| && Reading(lines, n, st) && !GoodTomlLine(lines, n)
    ensures StopsAt(lines, n) && !TomlGood(lines, |lines|)
    ensures TomlError(lines, n) == SlicePanic <==> exists i: nat :: TomlPanic(lines, i)
  {
    hide GoodTomlLine, ReadToml, TomlPanic, TomlError, TomlRead;
    OneStop(lines, n);
    TomlPanicIsStop(lines, n);
    forall i: nat | TomlPanic(lines, i) ensures i == n {
      TomlPanicIsStop(lines, i);
    }
  }

  lemma Finished(lines: seq<string>, st: TomlState)
    requires Reading(lines, |lines|, st)
    ensures TomlGood(lines, |lines|) && TomlRead(lines, |lines|, st.locations, st.values)
    ensures st.rootOrder == TomlRoots(lines, |lines|) && RootsAreNamed(st.locations, st.rootOrder)
    ensures forall i: nat :: !TomlPanic(lines, i)
  {
    hide GoodTomlLine, ReadToml, TomlRead, LoneQuoteHeader, TomlError, RootsAreNamed;
    forall i: nat ensures !TomlPanic(lines, i) {
      TomlPanicIsStop(lines, i);
    }
  }

  lemma TomlIsLocated(content: string, locations: map<string, Location>, values: map<string, string>)
    requires TomlRead(Lines(content), |Lines(content)|, locations, values)
    ensures AllLocated(content, locations)
  {
    hide Lines, ReadToml, PathAt, OpensRoot, TomlNames;
    var lines := Lines(content);
    forall k | k in locations ensures LocatedIn(content, locations[k]) {
      if k in values {
        var i :| 0 <= i < |lines| && PairRecorded(lines, i, locations, values) && PathAt(lines, i) == k;
      } else {
        var i :| 0 <= i < |lines| && RootRecorded(lines, i, locations) && RootOf(ReadToml(lines[i])) == k;
      }
    }
  }

  // ---- A document that panics ----

  lemma NoComment(raw: string)
    requires '#' !in raw
    ensures WithoutComment(raw, true) == raw
  {
    hide StateAt, FirstPlainOf;
    FirstPlainOfIs(raw, '#', 0);
  }

  lemma NoDots(s: string)
    requires '.' !in s
    ensures |SplitDots(s)| == 1 && SplitDots(s)[0] == s
  {
    assert Find(s, '.', 0).None?;
  }

  lemma OneLoneQuote(parts: seq<string>)
    requires |parts| == 1 && IsLoneQuote(Trim(parts[0]))
    ensures LoneQuoteAt(parts, 0)
  {
    hide Trim, IsLoneQuote, GoodComponent;
  }

  lemma LoneQuoteName(name: string)
    requires |name| == 1 && name[0] == '"'
    ensures |SplitDots(Trim(name))| == 1 && LoneQuoteAt(SplitDots(Trim(name)), 0)
  {
    hide *;
    var trimmed := Trim(name);
    TrimOne(name);
    NoDots(trimmed);
    var parts := SplitDots(trimmed);
    TrimOne(parts[0]);
    QuoteIsLone(Trim(parts[0]));
    OneLoneQuote(parts);
  }

  lemma QuoteIsLone(s: string)
    requires |s| == 1 && s[0] == '"'
    ensures IsLoneQuote(s)
  {
  }

  lemma LoneQuoteLine(line: string)
    requires |line| == 3 && line[0] == '[' && line[1] == '"' && line[2] == ']'
    ensures HasLoneQuote(line)
  {
    hide Trim, SplitDots, LoneQuoteAt, DotFree;
    LoneQuoteName(line[1..|line| - 1]);
  }

  lemma TrimOne(s: string)
    requires |s| == 1 && '!' <= s[0] <= '~'
    ensures |Trim(s)| == 1 && Trim(s)[0] == s[0]
  {
    TrimAscii(s);
  }

  lemma LoneQuoteTable(raw: string)
    requires |raw| == 3 && raw[0] == '[' && raw[1] == '"' && raw[2] == ']'
    ensures LoneQuoteHeader(raw)
  {
    hide Trim, WithoutComment, HasLoneQuote, IsWhitespace;
    LoneQuoteLine(raw);
    NoComment(raw);
    TrimAscii(raw);
  }

  lemma FirstLinePanics(content: string)
    requires Lines(content) == [content] && LoneQuoteHeader(content)
    ensures TomlPanic(Lines(content), 0)
  {
    hide LoneQuoteHeader, Lines;
  }

  /** The name of the table `["]` is a lone quote, and unquoting it makes the slice `[1..0]`. */
  method LoneQuoteTablePanics() returns (r: Result<ParsedDocument, ParseError>)
    ensures r == Err(SlicePanic)
  {
    hide *;
    var content := "[\"]";
    OneLine(content);
    LoneQuoteTable(content);
    FirstLinePanics(content);
    r := ParseToml(content);
  }
}
