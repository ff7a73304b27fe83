/**
 The hand-written JSON path scanner: one pass over the characters with a brace depth, the path of
 the enclosing objects, and a line counter. `Scan` is that pass as a function of its state and
 `ScanJsonObject` the loop that computes it; what it finds in every document is in `JsonTheorem`.
 */
module JsonScan {
  import opened Wrappers
  import opened Text
  import opened Documents
  import opened JsonTree

  datatype JsonError = UnterminatedString | InvalidString | MissingValue | DuplicateKey(path: string)

  datatype ScanState = ScanState(
    depth: nat,
    path: seq<string>,
    line: nat,
    roots: seq<string>,
    tables: Tables)

  /** Where each dotted path was found, and the text of its value. */
  datatype Tables = Tables(locations: map<string, Location>, values: map<string, string>)

  const START := ScanState(0, [], 1, [], Tables(map[], map[]))

  predicate IsAsciiSpace(c: char) {
    IsSpaceChar(c) || c == '\U{0C}'
  }

  /** The index of the first character from `i` on that is not white space. */
  function SkipSpace(s: string, i: nat): (j: nat)
    requires i <= |s|
    ensures i <= j <= |s|
    ensures j < |s| ==> !IsAsciiSpace(s[j])
    decreases |s| - i
  {
    if i < |s| && IsAsciiSpace(s[i]) then SkipSpace(s, i + 1) else i
  }

  /** The index of the quote that closes a string. */
  function ClosingQuote(s: string, i: nat, escaped: bool): (r: Option<nat>)
    requires i <= |s|
    ensures r.Some? ==> i <= r.value < |s|
    decreases |s| - i
  {
    if i == |s| then None
    else if escaped then ClosingQuote(s, i + 1, false)
    else if s[i] == '\\' then ClosingQuote(s, i + 1, true)
    else if s[i] == '"' then Some(i)
    else ClosingQuote(s, i + 1, false)
  }

  /** The decoded string that starts at `start`, and the index behind it. */
  function StringAt(s: string, start: nat, decode: Decoder): (r: Result<(string, nat), JsonError>)
    requires start < |s|
    ensures r.Ok? ==> start < r.value.1 <= |s|
  {
    match ClosingQuote(s, start + 1, false)
    case None => Err(UnterminatedString)
    case Some(end) =>
      match decode(s[start..end + 1])
      case None => Err(InvalidString)
      case Some(value) => Ok((value, end + 1))
  }

  method ParseJsonString(s: string, start: nat, decode: Decoder) returns (r: Result<(string, nat), JsonError>)
    requires start < |s|
    ensures r == StringAt(s, start, decode)
  {
    var index, escaped := start + 1, false;
    while index < |s|
      invariant start < index <= |s|
      invariant ClosingQuote(s, start + 1, false) == ClosingQuote(s, index, escaped)
    {
      if escaped {
        escaped := false;
      } else if s[index] == '\\' {
        escaped := true;
      } else if s[index] == '"' {
        match decode(s[start..index + 1])
        case None => return Err(InvalidString);
        case Some(value) => return Ok((value, index + 1));
      }
      index := index + 1;
    }
    return Err(UnterminatedString);
  }

  /** The text recorded for the value that starts at `start`. */
  function ScalarPreview(s: string, start: nat, decode: Decoder): Result<string, JsonError>
    requires start <= |s|
  {
    if start == |s| then Err(MissingValue)
    else if s[start] == '"' then
      match StringAt(s, start, decode)
      case Err(error) => Err(error)
      case Ok(found) => Ok(found.0)
    else Ok(Trim(s[start..FirstDelimiter(s, start)]))
  }

  /** `Vec::truncate`. */
  function Truncate(path: seq<string>, n: nat): seq<string> {
    if n < |path| then path[..n] else path
  }

  function Pred(n: nat): nat {
    if n == 0 then 0 else n - 1
  }

  /** One turn of the scanner's loop: the new index and state. */
  function Step(s: string, i: nat, st: ScanState, decode: Decoder): (r: Result<(nat, ScanState), JsonError>)
    requires i < |s|
    ensures r.Ok? ==> i < r.value.0 <= |s|
  {
    if s[i] == '\n' then Ok((i + 1, st.(line := st.line + 1)))
    else if s[i] == '{' then Ok((i + 1, st.(depth := st.depth + 1)))
    else if s[i] == '}' then
      var depth := Pred(st.depth);
      Ok((i + 1, st.(depth := depth, path := if |st.path| >= depth then Truncate(st.path, Pred(depth)) else st.path)))
    else if s[i] == '"' then
      match StringAt(s, i, decode)
      case Err(error) => Err(error)
      case Ok((key, next)) =>
        var cursor := SkipSpace(s, next);
        if st.depth == 0 || cursor == |s| || s[cursor] != ':' then Ok((next, st))
        else KeyStep(s, next, SkipSpace(s, cursor + 1), key, st, decode)
    else Ok((i + 1, st))
  }

  /** Recording a key whose value starts at `valueStart`. */
  function KeyStep(s: string, next: nat, valueStart: nat, key: string, st: ScanState, decode: Decoder)
      : (r: Result<(nat, ScanState), JsonError>)
    requires next <= |s| && valueStart <= |s|
    ensures r.Ok? ==> r.value.0 == next
  {
    var keyPath := Join(st.path + [key]);
    if keyPath in st.tables.locations then Err(DuplicateKey(keyPath))
    else
      match ScalarPreview(s, valueStart, decode)
      case Err(error) => Err(error)
      case Ok(value) =>
        Ok((next, st.(
          roots := if st.depth == 1 then st.roots + [key] else st.roots,
          tables := Tables(
            st.tables.locations[keyPath := Location(st.line, LineText(s, st.line))],
            st.tables.values[keyPath := value]),
          path :=
            if valueStart < |s| && s[valueStart] == '{' then Truncate(st.path, Pred(st.depth)) + [key] else st.path)))
  }

  /** The whole pass from index `i` on. */
  function Scan(s: string, i: nat, st: ScanState, decode: Decoder): Result<ScanState, JsonError>
    requires i <= |s|
    decreases |s| - i
  {
    if i == |s| then Ok(st)
    else
      match Step(s, i, st, decode)
      case Err(error) => Err(error)
      case Ok((next, after)) => Scan(s, next, after, decode)
  }

  /** The turn for a quote: a string is passed over, a key with its value recorded. */
  method StringTurn(s: string, index: nat, st: ScanState, decode: Decoder)
      returns (r: Result<(nat, ScanState), JsonError>)
    requires index < |s| && s[index] == '"'
    ensures r == Step(s, index, st, decode)
  {
    hide StringAt, SkipSpace, ScalarPreview, LineText, Join, Truncate;
    var parsed := ParseJsonString(s, index, decode);
    if parsed.Err? {
      return Err(parsed.error);
    }
    var (key, next) := parsed.value;
    var cursor := SkipSpace(s, next);
    if st.depth == 0 || cursor == |s| || s[cursor] != ':' {
      return Ok((next, st));
    }
    var valueStart := SkipSpace(s, cursor + 1);
    var keyPath := Join(st.path + [key]);
    if keyPath in st.tables.locations {
      return Err(DuplicateKey(keyPath));
    }
    var roots := if st.depth == 1 then st.roots + [key] else st.roots;
    var locations := st.tables.locations[keyPath := Location(st.line, LineText(s, st.line))];
    var value := ScalarPreview(s, valueStart, decode);
    if value.Err? {
      return Err(value.error);
    }
    var path := st.path;
    if valueStart < |s| && s[valueStart] == '{' {
      path := Truncate(path, Pred(st.depth)) + [key];
    }
    var tables := Tables(locations, st.tables.values[keyPath := value.value]);
    return Ok((next, ScanState(st.depth, path, st.line, roots, tables)));
  }

  lemma ScanTurn(s: string, i: nat, st: ScanState, decode: Decoder)
    requires i < |s|
    ensures var step := Step(s, i, st, decode);
      Scan(s, i, st, decode) == if step.Ok? then Scan(s, step.value.0, step.value.1, decode) else Err(step.error)
  {
    hide Step;
  }

  /** The turn for every other character. */
  lemma PlainTurn(s: string, i: nat, st: ScanState, decode: Decoder)
    requires i < |s| && s[i] != '"'
    ensures Step(s, i, st, decode) == Ok((i + 1,
      if s[i] == '\n' then st.(line := st.line + 1)
      else if s[i] == '{' then st.(depth := st.depth + 1)
      else if s[i] == '}' then
        st.(depth := Pred(st.depth),
            path := if |st.path| >= Pred(st.depth) then Truncate(st.path, Pred(Pred(st.depth))) else st.path)
      else st))
  {
    hide StringAt, KeyStep, Truncate;
  }

  /** The loop itself, with its variables updated in place. */
  method ScanJsonObject(content: string, decode: Decoder)
      returns (r: Result<(seq<string>, map<string, Location>, map<string, string>), JsonError>)
    ensures var scan := Scan(content, 0, START, decode);
      && (r.Ok? <==> scan.Ok?)
      && (r.Ok? ==> r.value == (scan.value.roots, scan.value.tables.locations, scan.value.tables.values))
      && (r.Err? ==> r.error == scan.error)
  {
    hide Step, Scan, Truncate, Pred;
    var roots: seq<string> := [];
    var tables := Tables(map[], map[]);
    var path: seq<string> := [];
    var depth, index, line := 0, 0, 1;
    while index < |content|
      invariant index <= |content|
      invariant Scan(content, 0, START, decode)
             == Scan(content, index, ScanState(depth, path, line, roots, tables), decode)
    {
      var c := content[index];
      ghost var before := ScanState(depth, path, line, roots, tables);
      ScanTurn(content, index, before, decode);
      if c == '"' {
        var turn := StringTurn(content, index, ScanState(depth, path, line, roots, tables), decode);
        if turn.Err? {
          return Err(turn.error);
        }
        index := turn.value.0;
        roots, tables, path := turn.value.1.roots, turn.value.1.tables, turn.value.1.path;
        depth, line := turn.value.1.depth, turn.value.1.line;
      } else {
        PlainTurn(content, index, before, decode);
        if c == '\n' {
          line := line + 1;
        } else if c == '{' {
          depth := depth + 1;
        } else if c == '}' {
          depth := Pred(depth);
          if |path| >= depth {
            path := Truncate(path, Pred(depth));
          }
        }
        index := index + 1;
      }
    }
    ScanEnds(content, ScanState(depth, path, line, roots, tables), decode);
    return Ok((roots, tables.locations, tables.values));
  }

  lemma ScanEnds(s: string, st: ScanState, decode: Decoder)
    ensures Scan(s, |s|, st, decode) == Ok(st)
  {
  }
}
