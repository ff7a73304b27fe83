/** The reader of properties documents: what it accepts, what it reads, and when it panics. */
module Properties {
  import opened Wrappers
  import opened Text
  import opened Utf8
  import opened Ordering
  import opened Documents

  datatype PropertyLine = Blank | NoPair | Panics(key: string) | Pair(key: string, value: string)

  /** The first character that satisfies `p`, from `i` on. */
  function FirstWhere(s: string, p: char -> bool, i: nat): (r: Option<nat>)
    requires i <= |s|
    ensures r.Some? ==> i <= r.value < |s| && p(s[r.value]) && forall k :: i <= k < r.value ==> !p(s[k])
    ensures r.None? ==> forall k :: i <= k < |s| ==> !p(s[k])
    decreases |s| - i
  {
    if i == |s| then None else if p(s[i]) then Some(i) else FirstWhere(s, p, i + 1)
  }

  predicate IsAssign(c: char) {
    c == '=' || c == ':'
  }

  /** Where the key of a properties line ends. */
  function PropertySeparator(line: string): (r: Option<nat>)
    ensures r.Some? ==> r.value < |line|
  {
    match FirstWhere(line, IsAssign, 0)
    case Some(k) => Some(k)
    case None => FirstWhere(line, IsWhitespace, 0)
  }

  predicate IsComment(line: string) {
    line == "" || line[0] == '#' || line[0] == '!'
  }

  /** One line; the value starts one byte behind the separator, which must therefore be one byte long. */
  function ReadProperty(raw: string): PropertyLine {
    var line := Trim(raw);
    if IsComment(line) then Blank
    else
      match PropertySeparator(line)
      case None => NoPair
      case Some(k) =>
        if Trim(line[..k]) == "" then NoPair
        else if CharLen(line[k]) != 1 then Panics(Trim(line[..k]))
        else Pair(Trim(line[..k]), Trim(line[k + 1..]))
  }

  // ---- What a line says, on its text ----

  predicate IsBlankText(raw: string) {
    var line := Trim(raw);
    line == "" || line[0] == '#' || line[0] == '!'
  }

  /**
   The trimmed line is no comment; the key ends at its first `=` or `:`, or else at its first white
   space; in front of that stands the key, behind it the value.
   */
  ghost predicate PairAt(raw: string, key: string, value: string, k: nat) {
    var line := Trim(raw);
    && !IsBlankText(raw) && k < |line|
    && (if '=' in line || ':' in line
        then line[k] in {'=', ':'} && forall i :: 0 <= i < k ==> line[i] !in {'=', ':'}
        else && IsWhitespace(line[k]) && CharLen(line[k]) == 1
             && forall i :: 0 <= i < k ==> !IsWhitespace(line[i]))
    && key != "" && key == Trim(line[..k]) && value == Trim(line[k + 1..])
  }

  ghost predicate SaysPair(raw: string, key: string, value: string) {
    exists k: nat :: PairAt(raw, key, value, k)
  }

  lemma SeparatorIs(line: string, k: nat)
    requires k < |line|
    requires if '=' in line || ':' in line
             then line[k] in {'=', ':'} && forall i :: 0 <= i < k ==> line[i] !in {'=', ':'}
             else IsWhitespace(line[k]) && forall i :: 0 <= i < k ==> !IsWhitespace(line[i])
    ensures PropertySeparator(line) == Some(k)
  {
    hide IsWhitespace, CharLen;
    SeparatorCases(line);
    var r := PropertySeparator(line);
    if '=' in line || ':' in line {
      assert IsAssign(line[k]);
      var first := FirstWhere(line, IsAssign, 0);
      assert first.Some? && IsAssign(line[first.value]);
    }
  }

  /** The reader of a line and its text agree. */
  lemma SaysPairIff(raw: string, key: string, value: string)
    ensures ReadProperty(raw) == Pair(key, value) <==> SaysPair(raw, key, value)
  {
    hide Trim, CharLen, IsWhitespace, PropertySeparator;
    var line := Trim(raw);
    SeparatorCases(line);
    if ReadProperty(raw) == Pair(key, value) {
      var k := PropertySeparator(line).value;
      FirstAssign(line);
      assert PairAt(raw, key, value, k);
    }
    forall k: nat | PairAt(raw, key, value, k) ensures ReadProperty(raw) == Pair(key, value) {
      SeparatorIs(line, k);
      OneByteSeparators();
    }
  }

  lemma OneByteSeparators()
    ensures CharLen('=') == 1 && CharLen(':') == 1
  {
  }

  lemma FirstAssign(line: string)
    ensures '=' in line || ':' in line ==>
      var k := PropertySeparator(line);
      k.Some? && line[k.value] in {'=', ':'} && forall i :: 0 <= i < k.value ==> line[i] !in {'=', ':'}
  {
    hide IsWhitespace;
    var r := FirstWhere(line, IsAssign, 0);
    if r.None? {
      forall i | 0 <= i < |line| ensures line[i] !in {'=', ':'} {
        assert !IsAssign(line[i]);
      }
    } else {
      assert IsAssign(line[r.value]);
      forall i | 0 <= i < r.value ensures line[i] !in {'=', ':'} {
        assert !IsAssign(line[i]);
      }
    }
  }

  lemma BlankIff(raw: string)
    ensures ReadProperty(raw).Blank? <==> IsBlankText(raw)
  {
    hide Trim, PropertySeparator, CharLen;
  }

  // ---- Which lines panic ----

  /**
   The trimmed line is no comment and has neither `=` nor `:`, and its first white space, which ends
   the key, is longer than one byte.
   */
  ghost predicate BreaksSlice(raw: string, key: string) {
    var line := Trim(raw);
    && !IsComment(line) && '=' !in line && ':' !in line
    && |key| < |line| && line[..|key|] == key
    && IsWhitespace(line[|key|]) && CharLen(line[|key|]) > 1
    && forall i :: 0 <= i < |key| ==> !IsWhitespace(key[i])
  }

  /** An `=` or a colon comes before any white space. */
  lemma SeparatorCases(line: string)
    ensures var k := PropertySeparator(line);
      if '=' in line || ':' in line then k.Some? && CharLen(line[k.value]) == 1
      else && (k.Some? ==> IsWhitespace(line[k.value]) && forall i :: 0 <= i < k.value ==> !IsWhitespace(line[i]))
           && (k.None? ==> forall i :: 0 <= i < |line| ==> !IsWhitespace(line[i]))
  {
    assert CharLen('=') == 1 && CharLen(':') == 1;
    hide FirstWhere, IsWhitespace, CharLen;
    var k := FirstWhere(line, IsAssign, 0);
    if k.None? {
      forall i | 0 <= i < |line| ensures line[i] != '=' && line[i] != ':' {
        assert !IsAssign(line[i]);
      }
    }
  }

  lemma PanicsMeansBreaks(raw: string)
    requires ReadProperty(raw).Panics?
    ensures BreaksSlice(raw, ReadProperty(raw).key)
  {
    hide Trim, CharLen, IsWhitespace, PropertySeparator, IsComment;
    var line := Trim(raw);
    SeparatorCases(line);
    TrimVisible(line[..PropertySeparator(line).value]);
  }

  lemma BreaksMeansPanics(raw: string, key: string)
    requires BreaksSlice(raw, key)
    ensures ReadProperty(raw) == Panics(key)
  {
    TrimEnds(raw);
    hide Trim, CharLen, IsWhitespace, PropertySeparator;
    var line := Trim(raw);
    SeparatorCases(line);
    forall i | 0 <= i < |key| ensures line[i] == key[i] {
      assert line[..|key|][i] == key[i];
    }
    assert PropertySeparator(line) == Some(|key|);
    TrimVisible(key);
  }

  lemma PanicsIff(raw: string)
    ensures ReadProperty(raw).Panics? ==> BreaksSlice(raw, ReadProperty(raw).key)
    ensures forall key :: BreaksSlice(raw, key) ==> ReadProperty(raw) == Panics(key)
  {
    hide *;
    if ReadProperty(raw).Panics? {
      PanicsMeansBreaks(raw);
    }
    forall key | BreaksSlice(raw, key) ensures ReadProperty(raw) == Panics(key) {
      BreaksMeansPanics(raw, key);
    }
  }

  // ---- The document ----

  /** The keys of the first `n` lines, in order. */
  function PropertyKeys(lines: seq<string>, n: nat): seq<string>
    requires n <= |lines|
  {
    if n == 0 then []
    else
      match ReadProperty(lines[n - 1])
      case Pair(key, _) => PropertyKeys(lines, n - 1) + [key]
      case _ => PropertyKeys(lines, n - 1)
  }

  /** The first `n` lines are comments or pairs, and no key comes twice. */
  ghost predicate PropertiesGood(lines: seq<string>, n: nat) {
    && n <= |lines|
    && (forall i :: 0 <= i < n ==> ReadProperty(lines[i]).Blank? || ReadProperty(lines[i]).Pair?)
    && NoDuplicates(PropertyKeys(lines, n))
  }

  lemma {:induction false} GoodBefore(lines: seq<string>, i: nat, j: nat)
    requires i <= j && PropertiesGood(lines, j)
    ensures PropertiesGood(lines, i) && PropertyKeys(lines, i) <= PropertyKeys(lines, j)
    decreases j - i
  {
    hide ReadProperty;
    if i < j {
      match ReadProperty(lines[j - 1]) {
        case Pair(key, _) => NoDuplicatesSnoc(PropertyKeys(lines, j - 1), key);
        case _ =>
      }
      GoodBefore(lines, i, j - 1);
    }
  }

  /** What stops the reader at line `i`. */
  function PropertyError(lines: seq<string>, i: nat): ParseError
    requires i < |lines|
  {
    match ReadProperty(lines[i])
    case Panics(key) => if key in PropertyKeys(lines, i) then Malformed(i + 1) else SlicePanic
    case _ => Malformed(i + 1)
  }

  /** Behind good lines alone stands a line that ends a new key with white space of more than one byte. */
  ghost predicate PropertyPanic(lines: seq<string>, i: nat, key: string) {
    PropertiesGood(lines, i) && i < |lines| && BreaksSlice(lines[i], key) && key !in PropertyKeys(lines, i)
  }

  /** Each key is where it says, and that line says so with this value. */
  ghost predicate PropertiesRead(content: string, locations: map<string, Location>, values: map<string, string>) {
    && locations.Keys == values.Keys
    && forall k :: k in locations ==>
      LocatedIn(content, locations[k]) && SaysPair(locations[k].source, k, values[k])
  }

  /** Every line is a comment or says a pair, and no two lines say one with the same key. */
  ghost predicate WellWritten(lines: seq<string>) {
    && (forall i :: 0 <= i < |lines| ==> IsBlankText(lines[i]) || exists key, value :: SaysPair(lines[i], key, value))
    && forall i, j, key, v, w :: 0 <= i < j < |lines| ==> !(SaysPair(lines[i], key, v) && SaysPair(lines[j], key, w))
  }

  lemma SaysItsPair(raw: string)
    ensures ReadProperty(raw).Pair? ==> SaysPair(raw, ReadProperty(raw).key, ReadProperty(raw).value)
    ensures (exists key, value :: SaysPair(raw, key, value)) <==> ReadProperty(raw).Pair?
  {
    hide ReadProperty, SaysPair;
    var line := ReadProperty(raw);
    if line.Pair? {
      SaysPairIff(raw, line.key, line.value);
    }
    forall key, value | SaysPair(raw, key, value) ensures line.Pair? {
      SaysPairIff(raw, key, value);
    }
  }

  lemma {:induction false} KeysDifferIff(lines: seq<string>, n: nat)
    requires n <= |lines|
    ensures NoDuplicates(PropertyKeys(lines, n)) <==>
      forall i, j :: 0 <= i < j < n && ReadProperty(lines[i]).Pair? && ReadProperty(lines[j]).Pair? ==>
        ReadProperty(lines[i]).key != ReadProperty(lines[j]).key
    ensures forall key :: key in PropertyKeys(lines, n) <==>
      exists i :: 0 <= i < n && ReadProperty(lines[i]).Pair? && ReadProperty(lines[i]).key == key
  {
    hide ReadProperty;
    if n > 0 {
      KeysDifferIff(lines, n - 1);
      var last := ReadProperty(lines[n - 1]);
      if last.Pair? {
        NoDuplicatesSnoc(PropertyKeys(lines, n - 1), last.key);
      }
    }
  }

  /** What the reader accepts is what is well written. */
  lemma GoodIffWellWritten(lines: seq<string>)
    ensures PropertiesGood(lines, |lines|) <==> WellWritten(lines)
  {
    hide ReadProperty, SaysPair, IsBlankText, PropertyKeys;
    KeysDifferIff(lines, |lines|);
    forall i | 0 <= i < |lines|
      ensures ReadProperty(lines[i]).Blank? <==> IsBlankText(lines[i])
      ensures (exists key, value :: SaysPair(lines[i], key, value)) <==> ReadProperty(lines[i]).Pair?
      ensures forall key, value :: SaysPair(lines[i], key, value) <==> ReadProperty(lines[i]) == Pair(key, value)
    {
      BlankIff(lines[i]);
      SaysItsPair(lines[i]);
      forall key, value ensures SaysPair(lines[i], key, value) <==> ReadProperty(lines[i]) == Pair(key, value) {
        SaysPairIff(lines[i], key, value);
      }
    }
    if WellWritten(lines) {
      forall i, j | 0 <= i < j < |lines| && ReadProperty(lines[i]).Pair? && ReadProperty(lines[j]).Pair?
        ensures ReadProperty(lines[i]).key != ReadProperty(lines[j]).key
      {
        var a, b := ReadProperty(lines[i]), ReadProperty(lines[j]);
        assert SaysPair(lines[i], a.key, a.value) && SaysPair(lines[j], b.key, b.value);
      }
    }
  }

  /** The reader stops at the first line that is not good, and says what is wrong with it. */
  method ParseProperties(content: string) returns (r: Result<ParsedDocument, ParseError>)
    ensures r.Ok? <==> PropertiesGood(Lines(content), |Lines(content)|)
    ensures r.Ok? <==> WellWritten(Lines(content))
    ensures r.Ok? ==> PropertiesRead(content, r.value.locations, r.value.values)
    ensures r.Ok? ==> r.value.rootOrder == PropertyKeys(Lines(content), |Lines(content)|)
    ensures r.Ok? ==> r.value.locations.Keys == (set k | k in r.value.rootOrder)
    ensures r.Err? ==> exists i: nat ::
      && PropertiesGood(Lines(content), i) && i < |Lines(content)| && !PropertiesGood(Lines(content), i + 1)
      && r.error == PropertyError(Lines(content), i)
    ensures r == Err(SlicePanic) <==> exists i: nat, key :: PropertyPanic(Lines(content), i, key)
  {
    hide Lines, ReadProperty, PropertyPanic, PropertyError, SaysPair, WellWritten;
    GoodIffWellWritten(Lines(content));
    var rootOrder: seq<string>, locations: map<string, Location>, values: map<string, string> := [], map[], map[];
    var lines := Lines(content);
    for index := 0 to |lines|
      invariant PropertiesGood(lines, index)
      invariant PropertiesRead(content, locations, values)
      invariant rootOrder == PropertyKeys(lines, index)
      invariant locations.Keys == (set k | k in rootOrder)
    {
      var raw := lines[index];
      match ReadProperty(raw) {
        case Blank =>
        case NoPair =>
          StopsAt(lines, index);
          PropertiesPanicIff(lines, index);
          return Err(Malformed(index + 1));
        case Panics(key) =>
          StopsAt(lines, index);
          PropertiesPanicIff(lines, index);
          if key in locations {
            return Err(Malformed(index + 1));
          }
          return Err(SlicePanic);
        case Pair(key, value) =>
          NoDuplicatesSnoc(rootOrder, key);
          if key in locations {
            StopsAt(lines, index);
            PropertiesPanicIff(lines, index);
            return Err(Malformed(index + 1));
          }
          SaysItsPair(raw);
          rootOrder := rootOrder + [key];
          locations := locations[key := Location(index + 1, raw)];
          values := values[key := value];
      }
    }
    NeverPanics(lines);
    return Ok(ParsedDocument(rootOrder, locations, values));
  }

  lemma StopsAt(lines: seq<string>, i: nat)
    requires i < |lines| && !PropertiesGood(lines, i + 1)
    ensures !PropertiesGood(lines, |lines|)
  {
    hide PropertiesGood;
    if PropertiesGood(lines, |lines|) {
      GoodBefore(lines, i + 1, |lines|);
    }
  }

  lemma NeverPanics(lines: seq<string>)
    requires PropertiesGood(lines, |lines|)
    ensures forall j: nat, key :: !PropertyPanic(lines, j, key)
  {
    hide ReadProperty, BreaksSlice;
    forall j: nat, key | PropertyPanic(lines, j, key) ensures false {
      BreaksMeansPanics(lines[j], key);
    }
  }

  /** The line at which the reader stops decides. */
  lemma PropertiesPanicIff(lines: seq<string>, i: nat)
    requires PropertiesGood(lines, i) && i < |lines| && !PropertiesGood(lines, i + 1)
    ensures PropertyError(lines, i) == SlicePanic <==> exists j: nat, key :: PropertyPanic(lines, j, key)
    ensures ReadProperty(lines[i]).Panics? ==>
      PropertyError(lines, i)
      == if ReadProperty(lines[i]).key in PropertyKeys(lines, i) then Malformed(i + 1) else SlicePanic
    ensures !ReadProperty(lines[i]).Panics? ==> PropertyError(lines, i) == Malformed(i + 1)
  {
    hide ReadProperty, BreaksSlice;
    PanicsIff(lines[i]);
    if PropertyError(lines, i) == SlicePanic {
      assert PropertyPanic(lines, i, ReadProperty(lines[i]).key);
    }
    forall j: nat, key | PropertyPanic(lines, j, key) ensures PropertyError(lines, i) == SlicePanic {
      PanicsIff(lines[j]);
      if i < j {
        GoodBefore(lines, i + 1, j);
      }
    }
  }

  // ---- Each key has one line ----

  lemma {:induction false} KeyIsListed(lines: seq<string>, i: nat, n: nat)
    requires i < n <= |lines| && ReadProperty(lines[i]).Pair?
    ensures ReadProperty(lines[i]).key in PropertyKeys(lines, n)
  {
    hide ReadProperty;
    if i < n - 1 {
      KeyIsListed(lines, i, n - 1);
    }
  }

  lemma OwnLine(lines: seq<string>, i: nat, j: nat)
    requires i < |lines| && j < |lines| && PropertiesGood(lines, |lines|)
    requires ReadProperty(lines[i]).Pair? && ReadProperty(lines[j]).Pair?
    requires ReadProperty(lines[i]).key == ReadProperty(lines[j]).key
    ensures i == j
  {
    hide ReadProperty;
    if i != j {
      var first, last := if i < j then i else j, if i < j then j else i;
      KeyIsListed(lines, first, last);
      GoodBefore(lines, last + 1, |lines|);
      NoDuplicatesSnoc(PropertyKeys(lines, last), ReadProperty(lines[last]).key);
    }
  }

  // ---- A document that panics ----

  lemma NoBreakSpaceBreaks()
    ensures BreaksSlice("k\U{00A0}v", "k")
  {
    var line := "k\U{00A0}v";
    assert TrimStart(line) == line && TrimEnd(line) == line;
    assert line[..1] == "k";
  }

  lemma FirstLinePanics(content: string, key: string)
    requires Lines(content) == [content] && BreaksSlice(content, key)
    ensures PropertyPanic(Lines(content), 0, key)
  {
    hide BreaksSlice, Lines, ReadProperty;
  }

  /** A no-break space ends a key, but its second byte is not where a slice may start. */
  method NoBreakSpacePanics() returns (r: Result<ParsedDocument, ParseError>)
    ensures r == Err(SlicePanic)
  {
    hide *;
    var content := "k\U{00A0}v";
    OneLine(content);
    NoBreakSpaceBreaks();
    FirstLinePanics(content, "k");
    r := ParseProperties(content);
  }
}
