/**
 The line scanners behind the YAML facts: quote-aware comment and separator search, and the
 indentation stack that gives each assignment its dotted path.
 */
module LineScan {
  import opened Wrappers
  import opened Text
  import opened Utf8
  import opened Documents

  // ---- Quotes ----

  datatype QuoteState = QuoteState(quote: Option<char>, escaped: bool)

  predicate IsQuote(c: char) {
    c == '\'' || c == '"'
  }

  function AfterChar(q: QuoteState, c: char): QuoteState {
    if q.escaped then q.(escaped := false)
    else if c == '\\' then q.(escaped := true)
    else if !IsQuote(c) then q
    else if q.quote == Some(c) then QuoteState(None, false)
    else if q.quote.None? then QuoteState(Some(c), false)
    else q
  }

  /** The quoting in force before the character at index `k`. */
  function StateAt(s: string, k: nat): QuoteState
    requires k <= |s|
  {
    if k == 0 then QuoteState(None, false) else AfterChar(StateAt(s, k - 1), s[k - 1])
  }

  /** The character at `k` is the needle, plain: not escaped, not in quotes, not itself a quote or backslash. */
  predicate PlainAt(s: string, needle: char, k: nat)
    requires k < |s|
  {
    s[k] == needle && needle != '\\' && !IsQuote(needle) && StateAt(s, k) == QuoteState(None, false)
  }

  ghost predicate FirstPlain(s: string, needle: char, k: nat) {
    k < |s| && PlainAt(s, needle, k) && forall j :: 0 <= j < k ==> !PlainAt(s, needle, j)
  }

  method FindUnquoted(value: string, needle: char) returns (r: Option<nat>)
    ensures r.Some? ==> FirstPlain(value, needle, r.value)
    ensures r.None? ==> forall k :: 0 <= k < |value| ==> !PlainAt(value, needle, k)
  {
    var quote: Option<char>, escaped := None, false;
    for index := 0 to |value|
      invariant StateAt(value, index) == QuoteState(quote, escaped)
      invariant forall k :: 0 <= k < index ==> !PlainAt(value, needle, k)
    {
      var character := value[index];
      if escaped {
        escaped := false;
        continue;
      }
      if character == '\\' {
        escaped := true;
      } else if IsQuote(character) {
        if quote == Some(character) {
          quote := None;
        } else if quote.None? {
          quote := Some(character);
        }
      } else if character == needle && quote.None? {
        return Some(index);
      }
    }
    return None;
  }

  method StripComment(value: string, marker: char) returns (r: string)
    ensures |r| <= |value| && r == value[..|r|]
    ensures |r| < |value| ==> FirstPlain(value, marker, |r|)
    ensures |r| == |value| ==> forall k :: 0 <= k < |value| ==> !PlainAt(value, marker, k)
  {
    var quote: Option<char>, escaped := None, false;
    for index := 0 to |value|
      invariant StateAt(value, index) == QuoteState(quote, escaped)
      invariant forall k :: 0 <= k < index ==> !PlainAt(value, marker, k)
    {
      var character := value[index];
      if escaped {
        escaped := false;
        continue;
      }
      if character == '\\' {
        escaped := true;
        continue;
      }
      if IsQuote(character) {
        if quote == Some(character) {
          quote := None;
        } else if quote.None? {
          quote := Some(character);
        }
      } else if character == marker && quote.None? {
        return value[..index];
      }
    }
    return value;
  }

  /** The two scanners, written separately, agree on every line and marker. */
  method CommentCutsWhereFound(value: string, marker: char) returns (kept: string, found: Option<nat>)
    ensures found.Some? ==> found.value < |value| && kept == value[..found.value]
    ensures found.None? ==> kept == value
  {
    found := FindUnquoted(value, marker);
    kept := StripComment(value, marker);
  }

  // ---- One line ----

  datatype Assignment = Assignment(line: nat, source: string, indent: nat, key: string, value: string)

  datatype ScanError = EmptyKey | DuplicateKey(path: string, line: nat) | LoneQuote

  datatype LineKind = Skipped | Rejected(error: ScanError) | Assigned(assignment: Assignment)

  function FirstPlainOf(s: string, needle: char, k: nat): (r: Option<nat>)
    requires k <= |s|
    ensures r.Some? ==> k <= r.value < |s|
    decreases |s| - k
  {
    if k == |s| then None else if PlainAt(s, needle, k) then Some(k) else FirstPlainOf(s, needle, k + 1)
  }

  lemma {:induction false} FirstPlainOfIs(s: string, needle: char, k: nat)
    requires k <= |s| && forall j :: 0 <= j < k ==> !PlainAt(s, needle, j)
    ensures var r := FirstPlainOf(s, needle, k);
      && (r.Some? <==> exists j :: FirstPlain(s, needle, j))
      && (r.Some? ==> FirstPlain(s, needle, r.value))
    decreases |s| - k
  {
    if k < |s| {
      if PlainAt(s, needle, k) {
        assert FirstPlain(s, needle, k);
      } else {
        FirstPlainOfIs(s, needle, k + 1);
      }
    }
  }

  /** Slicing `[1..0]` of a lone quote would panic. */
  function UnquoteKey(value: string): Result<string, ScanError> {
    var trimmed := Trim(value);
    if trimmed != "" && IsQuote(trimmed[0]) && trimmed[|trimmed| - 1] == trimmed[0] then
      if |trimmed| == 1 then Err(LoneQuote)
      else if |trimmed| == 2 then Err(EmptyKey)
      else Ok(trimmed[1..|trimmed| - 1])
    else if trimmed == "" then Err(EmptyKey)
    else Ok(trimmed)
  }

  function TrimQuotes(s: string): string {
    if s == "" then ""
    else if IsQuote(s[0]) then TrimQuotes(s[1..])
    else if IsQuote(s[|s| - 1]) then TrimQuotes(s[..|s| - 1])
    else s
  }

  /** Quotes of any kind are taken off both ends. */
  lemma {:induction false} TrimQuotesStrips(s: string)
    ensures Stripped(s, TrimQuotes(s), {'\'', '"'})
    decreases |s|
  {
    hide Stripped;
    if s != "" && s[0] in {'\'', '"'} {
      TrimQuotesStrips(s[1..]);
      StrippedFirst(s, TrimQuotes(s[1..]), {'\'', '"'});
    } else if s != "" && s[|s| - 1] in {'\'', '"'} {
      TrimQuotesStrips(s[..|s| - 1]);
      StrippedLast(s, TrimQuotes(s[..|s| - 1]), {'\'', '"'});
    } else {
      StrippedNothing(s, {'\'', '"'});
    }
  }

  /** The trimmed text is the key between two equal quotes, or the key itself when it does not stand so. */
  ghost predicate Unquotes(value: string, key: string) {
    var t := Trim(value);
    && key != ""
    && (|| t == "'" + key + "'"
        || t == "\"" + key + "\""
        || (t == key && !((t[0] == '\'' || t[0] == '"') && t[|t| - 1] == t[0])))
  }

  lemma UnquotesIff(value: string, key: string)
    ensures UnquoteKey(value) == Ok(key) <==> Unquotes(value, key)
  {
    hide Trim;
    var t := Trim(value);
    if UnquoteKey(value) == Ok(key) && t != key {
      assert t == [t[0]] + key + [t[0]];
    }
    assert ("'" + key + "'")[1..|key| + 1] == key && ("\"" + key + "\"")[1..|key| + 1] == key;
  }

  /** There is no key exactly when nothing but quotes is left, at most two of them and equal. */
  lemma NoKeyIff(value: string)
    ensures UnquoteKey(value).Err? <==> Trim(value) in {"", "'", "\"", "''", "\"\""}
  {
    hide Trim;
    var t := Trim(value);
    if |t| == 2 {
      assert t == [t[0], t[1]];
    } else if |t| == 1 {
      assert t == [t[0]];
    }
  }

  /** What one source line contributes. */
  function ParseLine(raw: string, number: nat, separator: char, yaml: bool): LineKind {
    ParseBody(raw, WithoutComment(raw, yaml), number, separator)
  }

  function WithoutComment(raw: string, yaml: bool): string {
    var cut := if yaml then FirstPlainOf(raw, '#', 0) else None;
    if cut.Some? then raw[..cut.value] else raw
  }

  function ParseBody(raw: string, text: string, number: nat, separator: char): LineKind {
    var trimmed := TrimStart(text);
    if trimmed == "" || trimmed[0] == '-' then Skipped
    else
      var position := FirstPlainOf(trimmed, separator, 0);
      if position.None? then Skipped
      else
        match UnquoteKey(Trim(trimmed[..position.value]))
        case Err(error) => Rejected(error)
        case Ok(key) =>
          Assigned(Assignment(number, raw, Indent(text), key, TrimQuotes(Trim(trimmed[position.value + 1..]))))
  }

  /** The bytes of white space a line starts with. */
  function Indent(text: string): nat {
    ByteLen(text[..|text| - |TrimStart(text)|])
  }

  lemma IndentIsLengthDifference(text: string)
    ensures ByteLen(text) - ByteLen(TrimStart(text)) == Indent(text)
  {
    hide TrimStart, ByteLen, Encode;
    EncodeSplit(text, |text| - |TrimStart(text)|);
  }

  lemma FirstPlainUnique(s: string, needle: char)
    ensures var r := FirstPlainOf(s, needle, 0);
      && (forall k: nat :: FirstPlain(s, needle, k) ==> r == Some(k))
      && ((forall k :: 0 <= k < |s| ==> !PlainAt(s, needle, k)) ==> r == None)
  {
    FirstPlainOfIs(s, needle, 0);
    var r := FirstPlainOf(s, needle, 0);
    forall k: nat | FirstPlain(s, needle, k) ensures r == Some(k) {
      FirstPlainSame(s, needle, r.value, k);
    }
  }

  /**
   The text of a line assigns: a key in front of the first plain separator, its value behind it, both
   without their quotes, indented by so many bytes of white space.
   */
  ghost predicate Assigns(raw: string, text: string, separator: char, a: Assignment) {
    var trimmed := TrimStart(text);
    && trimmed != "" && trimmed[0] != '-'
    && a.source == raw && a.indent == ByteLen(text[..|text| - |trimmed|])
    && exists k: nat :: AssignsAt(trimmed, separator, a.key, a.value, k)
  }

  ghost predicate AssignsAt(trimmed: string, separator: char, key: string, value: string, k: nat) {
    && FirstPlain(trimmed, separator, k)
    && Unquotes(trimmed[..k], key) && Stripped(Trim(trimmed[k + 1..]), value, {'\'', '"'})
  }

  lemma AssignsAtIff(trimmed: string, separator: char, key: string, value: string)
    ensures (exists k: nat :: AssignsAt(trimmed, separator, key, value, k)) <==>
      var position := FirstPlainOf(trimmed, separator, 0);
      && position.Some? && UnquoteKey(Trim(trimmed[..position.value])) == Ok(key)
      && value == TrimQuotes(Trim(trimmed[position.value + 1..]))
  {
    hide StateAt, PlainAt, FirstPlainOf, FirstPlain, Trim, TrimQuotes, UnquoteKey, Unquotes, Stripped;
    FirstPlainUnique(trimmed, separator);
    FirstPlainOfIs(trimmed, separator, 0);
    var position := FirstPlainOf(trimmed, separator, 0);
    if position.Some? {
      var before, after := trimmed[..position.value], trimmed[position.value + 1..];
      SameUnquoted(before);
      UnquotesIff(before, key);
      TrimQuotesStrips(Trim(after));
      if Stripped(Trim(after), value, {'\'', '"'}) {
        StrippedOnce(Trim(after), value, TrimQuotes(Trim(after)), {'\'', '"'});
      }
      assert AssignsAt(trimmed, separator, key, value, position.value)
        <==> Unquotes(before, key) && Stripped(Trim(after), value, {'\'', '"'});
      assert forall k: nat :: AssignsAt(trimmed, separator, key, value, k) ==> k == position.value;
    }
  }

  lemma SameUnquoted(value: string)
    ensures UnquoteKey(Trim(value)) == UnquoteKey(value)
  {
    hide Trim;
    TrimAgain(value);
  }

  /** The reader of a line and its text agree. */
  lemma AssignsIff(raw: string, text: string, number: nat, separator: char, a: Assignment)
    ensures ParseBody(raw, text, number, separator) == Assigned(a)
      <==> a.line == number && Assigns(raw, text, separator, a)
  {
    hide FirstPlainOf, Trim, TrimQuotes, UnquoteKey, AssignsAt, ByteLen, TrimStart;
    AssignsAtIff(TrimStart(text), separator, a.key, a.value);
  }

  lemma FirstPlainSame(s: string, needle: char, j: nat, k: nat)
    requires FirstPlain(s, needle, j) && FirstPlain(s, needle, k)
    ensures j == k
  {
  }

  /** An opening quote hides every separator until it is closed, so no key is a lone quote. */
  lemma NoLoneQuoteKey(trimmed: string, separator: char, position: nat)
    requires FirstPlain(trimmed, separator, position)
    requires trimmed != "" && !IsWhitespace(trimmed[0])
    ensures UnquoteKey(Trim(trimmed[..position])) != Err(LoneQuote)
  {
    hide StateAt, PlainAt, Join;
    var prefix := trimmed[..position];
    TrimTwice(prefix);
    var key := TrimEnd(prefix);
    if |key| == 1 && IsQuote(key[0]) {
      assert key[0] == trimmed[0];
      StillQuoted(trimmed, position);
      NotPlainInQuotes(trimmed, separator, position);
    }
  }

  lemma NotPlainInQuotes(s: string, needle: char, k: nat)
    requires k < |s| && StateAt(s, k).quote.Some?
    ensures !PlainAt(s, needle, k)
  {
  }

  lemma TrimTwice(s: string)
    requires s == "" || !IsWhitespace(s[0])
    ensures Trim(Trim(s)) == Trim(s) == TrimEnd(s)
  {
    var t := TrimEnd(s);
    assert t == "" || t[0] == s[0];
  }

  lemma {:induction false} StillQuoted(s: string, k: nat)
    requires 0 < k <= |s| && IsQuote(s[0])
    requires forall i :: 0 < i < k ==> IsWhitespace(s[i])
    ensures StateAt(s, k) == QuoteState(Some(s[0]), false)
  {
    if k == 1 {
      assert StateAt(s, 0) == QuoteState(None, false);
    } else {
      StillQuoted(s, k - 1);
      assert IsWhitespace(s[k - 1]);
    }
  }

  // ---- The chain of enclosing assignments, defined without a stack ----

  /** The nearest earlier assignment with a smaller indent. */
  function Parent(a: seq<Assignment>, i: nat): (r: Option<nat>)
    requires i < |a|
    ensures r.Some? ==> r.value < i
  {
    NearestBelow(a, a[i].indent, i)
  }

  function NearestBelow(a: seq<Assignment>, indent: nat, before: nat): (r: Option<nat>)
    requires before <= |a|
    ensures r.Some? ==>
      && r.value < before && a[r.value].indent < indent
      && forall j :: r.value < j < before ==> a[j].indent >= indent
    ensures r.None? ==> forall j :: 0 <= j < before ==> a[j].indent >= indent
  {
    if before == 0 then None
    else if a[before - 1].indent < indent then Some(before - 1)
    else NearestBelow(a, indent, before - 1)
  }

  /** An assignment behind its parent, its parent's parent, and so on, outermost first. */
  function Chain(a: seq<Assignment>, i: nat): (c: seq<nat>)
    requires i < |a|
    ensures c != [] && c[|c| - 1] == i
    ensures forall k :: 0 <= k < |c| ==> c[k] <= i
  {
    var parent := Parent(a, i);
    (if parent.None? then [] else Chain(a, parent.value)) + [i]
  }

  function Keys(a: seq<Assignment>, chain: seq<nat>): (keys: seq<string>)
    requires forall k :: 0 <= k < |chain| ==> chain[k] < |a|
    ensures |keys| == |chain|
  {
    seq(|chain|, k requires 0 <= k < |chain| => a[chain[k]].key)
  }

  /** The dotted path of the `i`-th assignment. */
  function PathOf(a: seq<Assignment>, i: nat): string
    requires i < |a|
  {
    Join(Keys(a, Chain(a, i)))
  }

  /** A stack that lists the indents and keys of a chain of assignments. */
  ghost predicate StackIs(a: seq<Assignment>, stack: seq<(nat, string)>, chain: seq<nat>) {
    && |stack| == |chain|
    && forall k :: 0 <= k < |chain| ==> chain[k] < |a| && stack[k] == (a[chain[k]].indent, a[chain[k]].key)
  }

  ghost predicate Increasing(stack: seq<(nat, string)>) {
    forall k, l :: 0 <= k < l < |stack| ==> stack[k].0 < stack[l].0
  }

  /**
   What the stack must be before assignment `n` is looked at: the chain of the previous assignment,
   or a part of it from which only indents of at least `floor` have been taken.
   */
  ghost predicate Popped(a: seq<Assignment>, chain: seq<nat>, n: nat, floor: nat) {
    && n <= |a|
    && (chain == [] || (chain[|chain| - 1] < n && chain == Chain(a, chain[|chain| - 1])))
    && forall j :: 0 <= j < n && (chain == [] || chain[|chain| - 1] < j) ==> a[j].indent >= floor
  }

  /** Taking the top, if its indent is at least the floor, uncovers the chain of its parent. */
  lemma PopOne(a: seq<Assignment>, chain: seq<nat>, n: nat, floor: nat)
    requires Popped(a, chain, n, floor) && chain != [] && a[chain[|chain| - 1]].indent >= floor
    ensures Popped(a, chain[..|chain| - 1], n, floor)
  {
    var top := chain[|chain| - 1];
    var parent := Parent(a, top);
    var rest := chain[..|chain| - 1];
    assert Chain(a, top) == (if parent.None? then [] else Chain(a, parent.value)) + [top];
    assert rest == if parent.None? then [] else Chain(a, parent.value);
  }

  /** Once the top is below the floor, it is the parent of the assignment with that indent. */
  lemma PushedChain(a: seq<Assignment>, chain: seq<nat>, n: nat)
    requires n < |a| && Popped(a, chain, n, a[n].indent)
    requires chain != [] ==> a[chain[|chain| - 1]].indent < a[n].indent
    ensures Chain(a, n) == chain + [n]
  {
    var parent := Parent(a, n);
    if chain != [] {
      var top := chain[|chain| - 1];
      assert parent == Some(top);
    }
  }

  /** Along a chain the indents increase strictly. */
  lemma {:induction false} ChainIncreases(a: seq<Assignment>, i: nat, k: nat, l: nat)
    requires i < |a| && k < l < |Chain(a, i)|
    ensures a[Chain(a, i)[k]].indent < a[Chain(a, i)[l]].indent
  {
    var chain, parent := Chain(a, i), Parent(a, i);
    if parent.Some? {
      var rest := Chain(a, parent.value);
      if l < |rest| {
        ChainIncreases(a, parent.value, k, l);
      } else if k < |rest| - 1 {
        ChainIncreases(a, parent.value, k, |rest| - 1);
      }
    }
  }

  // ---- The scan ----

  /** The assignments among the first `n` lines, in order. */
  function Assignments(lines: seq<string>, n: nat, separator: char, yaml: bool): seq<Assignment>
    requires n <= |lines|
  {
    if n == 0 then []
    else
      var before := Assignments(lines, n - 1, separator, yaml);
      match ParseLine(lines[n - 1], n, separator, yaml)
      case Assigned(assignment) => before + [assignment]
      case _ => before
  }

  /** Exactly the assignments that the lines' texts make. */
  lemma {:induction false} AssignmentsIff(lines: seq<string>, n: nat, separator: char, yaml: bool, a: Assignment)
    requires n <= |lines|
    ensures a in Assignments(lines, n, separator, yaml) <==>
      && 1 <= a.line <= n
      && Assigns(lines[a.line - 1], WithoutComment(lines[a.line - 1], yaml), separator, a)
  {
    hide ParseBody, Assigns, WithoutComment;
    if n > 0 {
      AssignmentsIff(lines, n - 1, separator, yaml, a);
      AssignsIff(lines[n - 1], WithoutComment(lines[n - 1], yaml), n, separator, a);
      LineOf(lines[n - 1], n, separator, yaml);
    }
  }

  lemma LineOf(raw: string, number: nat, separator: char, yaml: bool)
    ensures var kind := ParseLine(raw, number, separator, yaml);
      kind.Assigned? ==> kind.assignment.line == number
  {
    hide FirstPlainOf, Trim, TrimQuotes, UnquoteKey, TrimStart, Indent, WithoutComment;
  }

  ghost predicate NoneRejected(lines: seq<string>, n: nat, separator: char, yaml: bool) {
    n <= |lines| && forall i :: 0 <= i < n ==> !ParseLine(lines[i], i + 1, separator, yaml).Rejected?
  }

  ghost predicate DistinctPaths(a: seq<Assignment>, n: nat) {
    n <= |a| && forall i, j :: 0 <= i < j < n ==> PathOf(a, i) != PathOf(a, j)
  }

  ghost predicate RecordedAt(a: seq<Assignment>, i: nat, locations: map<string, Location>, values: map<string, string>)
    requires i < |a| && locations.Keys == values.Keys
  {
    var path := PathOf(a, i);
    path in locations && locations[path] == Location(a[i].line, a[i].source) && values[path] == a[i].value
  }

  /** The tables hold exactly the paths of the first `n` assignments, each with its own line and value. */
  ghost predicate Recorded(a: seq<Assignment>, n: nat, locations: map<string, Location>, values: map<string, string>) {
    && n <= |a|
    && locations.Keys == values.Keys
    && (forall i :: 0 <= i < n ==> RecordedAt(a, i, locations, values))
    && (forall p :: p in locations ==> exists i :: 0 <= i < n && PathOf(a, i) == p)
  }

  lemma {:induction false} AssignmentsPrefix(lines: seq<string>, i: nat, j: nat, separator: char, yaml: bool)
    requires i <= j <= |lines|
    ensures Assignments(lines, i, separator, yaml) <= Assignments(lines, j, separator, yaml)
    decreases j - i
  {
    hide ParseLine;
    if i < j {
      AssignmentsPrefix(lines, i, j - 1, separator, yaml);
    }
  }

  lemma RecordOne(a: seq<Assignment>, n: nat, locations: map<string, Location>, values: map<string, string>)
    requires n < |a| && Recorded(a, n, locations, values)
    ensures PathOf(a, n) !in locations ==>
      && Recorded(a, n + 1, locations[PathOf(a, n) := Location(a[n].line, a[n].source)],
                  values[PathOf(a, n) := a[n].value])
      && (DistinctPaths(a, n) ==> DistinctPaths(a, n + 1))
    ensures PathOf(a, n) in locations ==> !DistinctPaths(a, n + 1)
  {
    hide PathOf;
    var path := PathOf(a, n);
    if path !in locations {
      forall i | 0 <= i < n ensures PathOf(a, i) != path {
        assert RecordedAt(a, i, locations, values);
      }
      var l, v := locations[path := Location(a[n].line, a[n].source)], values[path := a[n].value];
      forall i | 0 <= i < n + 1 ensures RecordedAt(a, i, l, v) {
        assert i < n ==> RecordedAt(a, i, locations, values);
      }
      forall p | p in l ensures exists i :: 0 <= i < n + 1 && PathOf(a, i) == p {
        if p == path {
          assert PathOf(a, n) == p;
        } else {
          var i :| 0 <= i < n && PathOf(a, i) == p;
          assert 0 <= i < n + 1 && PathOf(a, i) == p;
        }
      }
    } else {
      var i :| 0 <= i < n && PathOf(a, i) == path;
    }
  }

  lemma DistinctPathsPrefix(a: seq<Assignment>, m: nat, n: nat)
    requires m <= n && DistinctPaths(a, n)
    ensures DistinctPaths(a, m)
  {
  }

  /**
   The scan of all lines of a document. It succeeds exactly when no key is rejected and no dotted
   path repeats; whenever an assignment is pushed, the stack is its chain of enclosing assignments,
   with strictly increasing indents; and the tables record every path with its own line and value.
   `stacks` lists the stack after each push.
   */
  method ScanIndentedAssignments(content: string, separator: char, yaml: bool)
      returns (r: Result<(map<string, Location>, map<string, string>), ScanError>,
               ghost stacks: seq<seq<(nat, string)>>)
    ensures var lines := Lines(content);
      var a := Assignments(lines, |lines|, separator, yaml);
      && (r.Ok? <==> NoneRejected(lines, |lines|, separator, yaml) && DistinctPaths(a, |a|))
      && (r.Ok? ==> Recorded(a, |a|, r.value.0, r.value.1) && |stacks| == |a|)
      && |stacks| <= |a|
      && (forall i :: 0 <= i < |stacks| ==> StackIs(a, stacks[i], Chain(a, i)) && Increasing(stacks[i]))
    ensures r != Err(LoneQuote)
  {
    hide ParseLine, Scanning, DistinctPaths, Lines;
    var lines := Lines(content);
    ghost var a := Assignments(lines, |lines|, separator, yaml);
    var locations: map<string, Location>, values: map<string, string> := map[], map[];
    var stack: seq<(nat, string)> := [];
    stacks := [];
    ScanStarts(a);
    for index := 0 to |lines|
      invariant NoneRejected(lines, index, separator, yaml)
      invariant |stacks| <= |a| && Assignments(lines, index, separator, yaml) == a[..|stacks|]
      invariant Scanning(a, locations, values, stack, stacks)
    {
      var kind := ClassifyLine(lines[index], index + 1, separator, yaml);
      AssignmentsPrefix(lines, index + 1, |lines|, separator, yaml);
      match kind
      case Skipped =>
      case Rejected(error) =>
        ScanFacts(a, locations, values, stack, stacks);
        return Err(error), stacks;
      case Assigned(assignment) =>
        assert a[|stacks|] == assignment;
        ghost var before := stacks;
        var duplicate;
        duplicate, locations, values, stack, stacks := Push(a, assignment, locations, values, stack, stacks);
        if duplicate.Some? {
          ScanFacts(a, locations, values, stack, stacks);
          return Err(DuplicateKey(duplicate.value, index + 1)), stacks;
        }
        assert a[..|stacks|] == a[..|before|] + [assignment];
    }
    assert a[..|a|] == a;
    ScanFacts(a, locations, values, stack, stacks);
    return Ok((locations, values)), stacks;
  }

  /** How far the scan has come after `|stacks|` assignments. */
  ghost predicate Scanning(a: seq<Assignment>, locations: map<string, Location>, values: map<string, string>,
                           stack: seq<(nat, string)>, stacks: seq<seq<(nat, string)>>) {
    && |stacks| <= |a|
    && DistinctPaths(a, |stacks|)
    && Recorded(a, |stacks|, locations, values)
    && StackIs(a, stack, if stacks == [] then [] else Chain(a, |stacks| - 1))
    && forall i :: 0 <= i < |stacks| ==> StackIs(a, stacks[i], Chain(a, i)) && Increasing(stacks[i])
  }

  lemma ScanStarts(a: seq<Assignment>)
    ensures Scanning(a, map[], map[], [], [])
  {
  }

  lemma ScanFacts(a: seq<Assignment>, locations: map<string, Location>, values: map<string, string>,
                  stack: seq<(nat, string)>, stacks: seq<seq<(nat, string)>>)
    requires Scanning(a, locations, values, stack, stacks)
    ensures |stacks| <= |a| && DistinctPaths(a, |stacks|) && Recorded(a, |stacks|, locations, values)
    ensures forall i :: 0 <= i < |stacks| ==> StackIs(a, stacks[i], Chain(a, i)) && Increasing(stacks[i])
  {
  }

  /** Records one assignment and pushes it; `duplicate` is its path when that is already taken. */
  method Push(ghost a: seq<Assignment>, assignment: Assignment, locations: map<string, Location>,
              values: map<string, string>, stack: seq<(nat, string)>, ghost stacks: seq<seq<(nat, string)>>)
      returns (duplicate: Option<string>, locations': map<string, Location>, values': map<string, string>,
               stack': seq<(nat, string)>, ghost stacks': seq<seq<(nat, string)>>)
    requires Scanning(a, locations, values, stack, stacks) && |stacks| < |a| && a[|stacks|] == assignment
    ensures Scanning(a, locations', values', stack', stacks')
    ensures duplicate.None? ==> |stacks'| == |stacks| + 1
    ensures duplicate.Some? ==> !DistinctPaths(a, |a|)
  {
    hide Chain, PathOf, Keys, Components, StackIs, Recorded, DistinctPaths, Increasing, Join, Popped;
    ghost var n := |stacks|;
    var popped; ghost var chain;
    popped, chain := PopTo(a, stack, if n == 0 then [] else Chain(a, n - 1), n, assignment.indent);
    PushedPath(a, popped, chain, n);
    var path := Join(Components(popped) + [assignment.key]);
    RecordOne(a, n, locations, values);
    if path in locations {
      if DistinctPaths(a, |a|) {
        DistinctPathsPrefix(a, n + 1, |a|);
      }
      return Some(path), locations, values, stack, stacks;
    }
    locations' := locations[path := Location(assignment.line, assignment.source)];
    values' := values[path := assignment.value];
    stack' := popped + [(assignment.indent, assignment.key)];
    stacks' := stacks + [stack'];
    duplicate := None;
  }

  function Components(stack: seq<(nat, string)>): seq<string> {
    seq(|stack|, i requires 0 <= i < |stack| => stack[i].1)
  }

  /** Pushing assignment `n` on the popped stack gives its chain, and its path is read off the stack. */
  lemma PushedPath(a: seq<Assignment>, stack: seq<(nat, string)>, chain: seq<nat>, n: nat)
    requires n < |a| && StackIs(a, stack, chain) && Popped(a, chain, n, a[n].indent)
    requires chain != [] ==> a[chain[|chain| - 1]].indent < a[n].indent
    ensures Chain(a, n) == chain + [n]
    ensures Join(Components(stack) + [a[n].key]) == PathOf(a, n)
    ensures var pushed := stack + [(a[n].indent, a[n].key)];
      StackIs(a, pushed, Chain(a, n)) && Increasing(pushed)
  {
    hide Chain, Join, Popped;
    PushedChain(a, chain, n);
    assert Components(stack) + [a[n].key] == Keys(a, Chain(a, n));
    var pushed := stack + [(a[n].indent, a[n].key)];
    forall k: nat, l: nat | k < l < |pushed| ensures pushed[k].0 < pushed[l].0 {
      ChainIncreases(a, n, k, l);
    }
  }

  /** Dropping the entries that do not enclose assignment `n`. */
  method PopTo(ghost a: seq<Assignment>, before: seq<(nat, string)>, ghost was: seq<nat>, ghost n: nat, indent: nat)
      returns (stack: seq<(nat, string)>, ghost chain: seq<nat>)
    requires n < |a| && indent == a[n].indent && StackIs(a, before, was)
    requires was == if n == 0 then [] else Chain(a, n - 1)
    ensures StackIs(a, stack, chain) && Popped(a, chain, n, indent)
    ensures chain != [] ==> a[chain[|chain| - 1]].indent < indent
  {
    stack, chain := before, was;
    while stack != [] && stack[|stack| - 1].0 >= indent
      invariant StackIs(a, stack, chain) && Popped(a, chain, n, indent)
    {
      PopOne(a, chain, n, indent);
      stack, chain := stack[..|stack| - 1], chain[..|chain| - 1];
    }
  }

  /** One line through the two quote-aware scanners. */
  method ClassifyLine(raw: string, number: nat, separator: char, yaml: bool) returns (kind: LineKind)
    ensures kind == ParseLine(raw, number, separator, yaml)
    ensures kind != Rejected(LoneQuote)
  {
    var text := raw;
    if yaml {
      text := StripComment(raw, '#');
      hide *;
      CommentAgrees(raw, text);
    }
    hide ParseBody, PlainAt, FirstPlainOf;
    kind := ClassifyBody(raw, text, number, separator);
  }

  lemma CommentAgrees(raw: string, text: string)
    requires |text| <= |raw| && text == raw[..|text|]
    requires |text| < |raw| ==> FirstPlain(raw, '#', |text|)
    requires |text| == |raw| ==> forall k :: 0 <= k < |raw| ==> !PlainAt(raw, '#', k)
    ensures text == WithoutComment(raw, true)
  {
    hide PlainAt, FirstPlainOf;
    FirstPlainUnique(raw, '#');
    assert raw[..|raw|] == raw;
  }

  method ClassifyBody(raw: string, text: string, number: nat, separator: char) returns (kind: LineKind)
    ensures kind == ParseBody(raw, text, number, separator)
    ensures kind != Rejected(LoneQuote)
  {
    hide StateAt, PlainAt, UnquoteKey, Trim, TrimQuotes, FirstPlainOf, TrimStart, Indent, Encode, ByteLen;
    var trimmed := TrimStart(text);
    if trimmed == "" || trimmed[0] == '-' {
      return Skipped;
    }
    var indent := |Encode(text)| - |Encode(trimmed)|;
    IndentIsLengthDifference(text);
    var position := FindUnquoted(trimmed, separator);
    FirstPlainUnique(trimmed, separator);
    if position.None? {
      return Skipped;
    }
    NoLoneQuoteKey(trimmed, separator, position.value);
    var key := UnquoteKey(Trim(trimmed[..position.value]));
    if key.Err? {
      return Rejected(key.error);
    }
    return Assigned(Assignment(number, raw, indent, key.value, TrimQuotes(Trim(trimmed[position.value + 1..]))));
  }
}
