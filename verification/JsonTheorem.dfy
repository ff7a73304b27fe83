/**
 What the scanner finds: on every well-formed document it records the keys that `JsonSeen` lists, in
 order, until a path comes again. Without keys below arrays these are exactly the document's keys.
 */
module JsonTheorem {
  import opened Wrappers
  import opened Text
  import opened Documents
  import opened Ordering
  import opened JsonTree
  import opened JsonScan
  import opened JsonWalk
  import opened JsonTables
  import opened JsonPreview
  import opened JsonSeen

  /** Scanning from index `i` on, with the line counter where it belongs. */
  ghost function Walk(s: string, i: nat, st: ScanState, decode: Decoder): Result<ScanState, JsonError>
    requires i <= |s|
  {
    Scan(s, i, st.(line := LineAt(s, i)), decode)
  }

  lemma WalkPlain(s: string, i: nat, j: nat, st: ScanState, decode: Decoder)
    requires i <= j <= |s|
    requires forall k :: i <= k < j ==> IsPlain(s[k])
    ensures Walk(s, i, st, decode) == Walk(s, j, st, decode)
  {
    hide LineAt, Scan;
    SkipPlain(s, i, j, st.(line := LineAt(s, i)), decode);
  }

  /** Going on from `j` with what recording made of the tables. */
  ghost function Continue(s: string, j: nat, st: ScanState, tables: Result<Tables, JsonError>, decode: Decoder)
      : Result<ScanState, JsonError>
    requires j <= |s|
  {
    match tables
    case Err(error) => Err(error)
    case Ok(t) => Walk(s, j, st.(tables := t), decode)
  }

  lemma WalkOpen(s: string, i: nat, st: ScanState, decode: Decoder)
    requires At(s, i, "{")
    ensures i < |s| && Walk(s, i, st, decode) == Walk(s, i + 1, st.(depth := st.depth + 1), decode)
  {
    hide LineAt;
    AtChar(s, i, "{", 0);
    LineStep(s, i);
  }

  /** Closing an object cuts the path by depth. */
  lemma WalkClose(s: string, i: nat, st: ScanState, decode: Decoder)
    requires i < |s| && s[i] == '}' && st.depth >= 1
    ensures Walk(s, i, st, decode)
      == Walk(s, i + 1, st.(depth := st.depth - 1, path := Left(st.path, st.depth - 1)), decode)
  {
    hide LineAt;
    LineStep(s, i);
  }

  // ---- One key ----

  /** The state behind a key: its line and value are recorded, and its name stays if an object follows. */
  ghost function AfterKey(s: string, k: nat, name: string, v: Value, st: ScanState, decode: Decoder): ScanState
    requires k <= |s|
  {
    ScanState(st.depth, Entered(v, name, st.path, st.depth), st.line,
      if st.depth == 1 then st.roots + [name] else st.roots,
      Add(s, st.tables, Entry(st.path + [name], k, ValueText(v, decode))))
  }

  lemma KeyStepRecords(s: string, k: nat, next: nat, valueStart: nat, name: string, v: Value, st: ScanState,
                       decode: Decoder)
    requires k <= |s| && next <= |s| && valueStart < |s| && st.line == LineAt(s, k)
    requires ScalarPreview(s, valueStart, decode) == Ok(ValueText(v, decode)) && (s[valueStart] == '{' <==> v.Object?)
    ensures KeyStep(s, next, valueStart, name, st, decode)
      == if Join(st.path + [name]) in st.tables.locations then Err(DuplicateKey(Join(st.path + [name])))
         else Ok((next, AfterKey(s, k, name, v, st, decode)))
  {
    hide ScalarPreview, ValueText, Join, LineAt, LineText, Truncate;
  }

  lemma StepAtKey(s: string, k: nat, next: nat, colon: nat, valueStart: nat, name: string, st: ScanState,
                  decode: Decoder)
    requires k < |s| && s[k] == '"' && StringAt(s, k, decode) == Ok((name, next)) && next <= |s| && st.depth >= 1
    requires SkipSpace(s, next) == colon && colon < |s| && s[colon] == ':' && SkipSpace(s, colon + 1) == valueStart
    ensures Step(s, k, st, decode) == KeyStep(s, next, valueStart, name, st, decode)
  {
    hide StringAt, SkipSpace, KeyStep;
  }

  lemma ScanStep(s: string, k: nat, st: ScanState, decode: Decoder)
    requires k < |s|
    ensures var step := Step(s, k, st, decode);
      if step.Ok? then k < step.value.0 <= |s| && Scan(s, k, st, decode) == Scan(s, step.value.0, step.value.1, decode)
      else Scan(s, k, st, decode) == Err(step.error)
  {
    hide Step;
  }

  lemma WalkKey(s: string, k: nat, colon: nat, valueStart: nat, raw: string, mid: string, post: string,
                v: Value, after: string, st: ScanState, decode: Decoder)
    requires At(s, k, Quote(raw)) && StringOk(raw, decode)
    requires At(s, k + |Quote(raw)|, mid) && IsSpace(mid) && colon == k + |Quote(raw)| + |mid| && At(s, colon, ":")
    requires At(s, colon + 1, post) && IsSpace(post) && valueStart == colon + 1 + |post|
    requires ValueOk(v, decode) && At(s, valueStart, Print(v)) && Closes(s, valueStart + |Print(v)|, after)
    requires st.depth >= 1
    ensures k + |Quote(raw)| <= |s|
    ensures var path := Join(st.path + [Name(raw, decode)]);
      Walk(s, k, st, decode)
      == if path in st.tables.locations then Err(DuplicateKey(path))
         else Walk(s, k + |Quote(raw)|, AfterKey(s, k, Name(raw, decode), v, st, decode), decode)
  {
    hide *;
    AtBound(s, k, Quote(raw));
    var name, here, next := Name(raw, decode), st.(line := LineAt(s, k)), k + |Quote(raw)|;
    StringAtQuote(s, k, raw, decode);
    QuotedLength(raw);
    AtChar(s, colon, ":", 0);
    SkipToColon(s, next, mid);
    Preview(s, valueStart, v, after, decode);
    SkipSpaceOver(s, colon + 1, post);
    StepAtKey(s, k, next, colon, valueStart, name, here, decode);
    KeyStepRecords(s, k, next, valueStart, name, v, here, decode);
    ScanStep(s, k, here, decode);
    WalkAfter(s, k, next, name, v, st, decode);
  }

  lemma SkipToColon(s: string, i: nat, mid: string)
    requires At(s, i, mid) && IsSpace(mid) && At(s, i + |mid|, ":")
    ensures SkipSpace(s, i) == i + |mid|
  {
    AtChar(s, i + |mid|, ":", 0);
    SkipSpaceOver(s, i, mid);
  }

  lemma WalkAfter(s: string, k: nat, next: nat, name: string, v: Value, st: ScanState, decode: Decoder)
    requires k <= |s| && next <= |s| && LineAt(s, next) == LineAt(s, k)
    ensures Walk(s, k, st, decode) == Scan(s, k, st.(line := LineAt(s, k)), decode)
    ensures Walk(s, next, AfterKey(s, k, name, v, st, decode), decode)
      == Scan(s, next, AfterKey(s, k, name, v, st.(line := LineAt(s, k)), decode), decode)
  {
    hide LineAt, Scan, Add, ValueText;
  }

  // ---- Objects ----

  function MidOffset(m: Members, i: nat): nat
    requires m.Member?
  {
    KeyOffset(m, i) + |Quote(m.key)|
  }

  function AfterOffset(m: Members, i: nat): nat
    requires m.Member?
  {
    ValueOffset(m, i) + |Print(m.value)|
  }

  /** Where the pieces of a member stand. */
  ghost predicate Laid(s: string, i: nat, m: Members)
    requires m.Member?
  {
    && At(s, i, m.pre)
    && At(s, KeyOffset(m, i), Quote(m.key))
    && At(s, MidOffset(m, i), m.mid)
    && At(s, MidOffset(m, i) + |m.mid|, ":")
    && At(s, MidOffset(m, i) + |m.mid| + 1, m.post)
    && At(s, ValueOffset(m, i), Print(m.value))
    && At(s, AfterOffset(m, i), m.after)
    && At(s, AfterOffset(m, i) + |m.after|, PrintMore(m.rest))
  }

  lemma Layout(s: string, i: nat, m: Members)
    requires m.Member? && At(s, i, PrintMembers(m))
    ensures Laid(s, i, m)
    ensures i + |PrintMembers(m)| == AfterOffset(m, i) + |m.after| + |PrintMore(m.rest)|
  {
    hide At, Print, Quote, PrintMore;
    var f := m.after + PrintMore(m.rest);
    var e := Print(m.value) + f;
    var d := m.post + e;
    var c := ":" + d;
    var b := m.mid + c;
    var a := Quote(m.key) + b;
    var k := KeyOffset(m, i);
    AtSplit(s, i, m.pre, a);
    AtSplit(s, k, Quote(m.key), b);
    AtSplit(s, MidOffset(m, i), m.mid, c);
    var colon := MidOffset(m, i) + |m.mid|;
    AtSplit(s, colon, ":", d);
    AtSplit(s, colon + 1, m.post, e);
    AtSplit(s, ValueOffset(m, i), Print(m.value), f);
    AtSplit(s, AfterOffset(m, i), m.after, PrintMore(m.rest));
  }

  lemma MemberSpaces(m: Members, decode: Decoder)
    requires m.Member? && MembersOk(m, decode)
    ensures IsSpace(m.pre) && IsSpace(m.mid) && IsSpace(m.post) && IsSpace(m.after) && StringOk(m.key, decode)
    ensures ValueOk(m.value, decode) && MembersOk(m.rest, decode)
  {
    hide StringOk, IsSpace, Name;
  }

  /** Up to the value: the member's key is recorded. */
  lemma WalkToValue(s: string, i: nat, m: Members, st: ScanState, decode: Decoder)
    requires m.Member? && MembersOk(m, decode) && Laid(s, i, m)
    requires Closes(s, AfterOffset(m, i), m.after)
    requires st.depth >= 1
    ensures i + |m.pre| <= |s| && ValueOffset(m, i) <= |s|
    ensures var path := Join(st.path + [Name(m.key, decode)]);
      Walk(s, i, st, decode)
      == if path in st.tables.locations then Err(DuplicateKey(path))
         else Walk(s, ValueOffset(m, i), AfterKey(s, i + |m.pre|, Name(m.key, decode), m.value, st, decode), decode)
  {
    hide *;
    LaidPieces(s, i, m);
    MemberSpaces(m, decode);
    var k, mid, colon, v := i + |m.pre|, MidOffset(m, i), MidOffset(m, i) + |m.mid|, ValueOffset(m, i);
    AtBound(s, k, Quote(m.key));
    AtBound(s, v, Print(m.value));
    SpaceIsPlain(s, i, m.pre);
    WalkPlain(s, i, k, st, decode);
    WalkKey(s, k, colon, v, m.key, m.mid, m.post, m.value, m.after, st, decode);
    var after := AfterKey(s, k, Name(m.key, decode), m.value, st, decode);
    SpaceIsPlain(s, mid, m.mid);
    AtChar(s, colon, ":", 0);
    ColonIsPlain();
    SpaceIsPlain(s, colon + 1, m.post);
    WalkPlain(s, mid, v, after, decode);
  }

  lemma ColonIsPlain()
    ensures IsPlain(':')
  {
  }

  lemma LaidPieces(s: string, i: nat, m: Members)
    requires m.Member? && Laid(s, i, m)
    ensures MidOffset(m, i) == i + |m.pre| + |Quote(m.key)|
    ensures ValueOffset(m, i) == MidOffset(m, i) + |m.mid| + 1 + |m.post|
    ensures AfterOffset(m, i) == ValueOffset(m, i) + |Print(m.value)|
    ensures At(s, i, m.pre) && At(s, i + |m.pre|, Quote(m.key)) && At(s, MidOffset(m, i), m.mid)
    ensures At(s, MidOffset(m, i) + |m.mid|, ":") && At(s, MidOffset(m, i) + |m.mid| + 1, m.post)
    ensures At(s, ValueOffset(m, i), Print(m.value)) && At(s, AfterOffset(m, i), m.after)
    ensures At(s, AfterOffset(m, i) + |m.after|, PrintMore(m.rest))
  {
    hide At, Print, Quote, PrintMore;
  }

  function MoreOffset(m: Members, i: nat): nat
    requires m.Member?
  {
    ValueOffset(m, i) + |Print(m.value)| + |m.after| + 1
  }

  // ---- Where the pieces stand ----

  lemma ObjectLaid(s: string, i: nat, v: Value)
    requires v.Object? && At(s, i, Print(v))
    ensures var start := i + (1 + |v.open|);
      && At(s, i, "{") && At(s, i + 1, v.open) && At(s, start, PrintMembers(v.members))
      && start + |PrintMembers(v.members)| < |s| && s[start + |PrintMembers(v.members)|] == '}'
      && i + |Print(v)| == start + |PrintMembers(v.members)| + 1
  {
    hide At, PrintMembers;
    AtSplit(s, i, "{", v.open + (PrintMembers(v.members) + "}"));
    AtSplit(s, i + 1, v.open, PrintMembers(v.members) + "}");
    AtSplit(s, i + (1 + |v.open|), PrintMembers(v.members), "}");
    AtChar(s, i + (1 + |v.open|) + |PrintMembers(v.members)|, "}", 0);
  }

  lemma ArrayLaid(s: string, i: nat, v: Value)
    requires v.Array? && At(s, i, Print(v))
    ensures var start := i + (1 + |v.open|);
      && At(s, i, "[") && At(s, i + 1, v.open) && At(s, start, PrintItems(v.items))
      && At(s, start + |PrintItems(v.items)|, "]")
      && i + |Print(v)| == start + |PrintItems(v.items)| + 1
  {
    hide At, PrintItems;
    AtSplit(s, i, "[", v.open + (PrintItems(v.items) + "]"));
    AtSplit(s, i + 1, v.open, PrintItems(v.items) + "]");
    AtSplit(s, i + (1 + |v.open|), PrintItems(v.items), "]");
  }

  function NextItem(items: Items, i: nat): nat
    requires items.Item?
  {
    i + |items.pre| + |Print(items.value)| + |items.post| + 1
  }

  lemma ItemLaid(s: string, i: nat, items: Items)
    requires items.Item? && At(s, i, PrintItems(items))
    ensures var v := i + |items.pre|;
      var a := v + |Print(items.value)|;
      && At(s, i, items.pre) && At(s, v, Print(items.value)) && At(s, a, items.post)
      && At(s, a + |items.post|, MoreItems(items.rest))
      && NextItem(items, i) == a + |items.post| + 1
      && i + |PrintItems(items)| == a + |items.post| + |MoreItems(items.rest)|
    ensures items.rest.Item? ==>
      && At(s, NextItem(items, i) - 1, ",") && At(s, NextItem(items, i), PrintItems(items.rest))
      && i + |PrintItems(items)| == NextItem(items, i) + |PrintItems(items.rest)|
    ensures items.rest.NoItems? ==> i + |PrintItems(items)| == NextItem(items, i) - 1
  {
    hide *;
    ItemText(items, i);
    var more := MoreItems(items.rest);
    var inner := items.post + more;
    AtSplit(s, i, items.pre, Print(items.value) + inner);
    AtSplit(s, i + |items.pre|, Print(items.value), inner);
    AtSplit(s, i + |items.pre| + |Print(items.value)|, items.post, more);
    NoMoreItems();
    if items.rest.Item? {
      MoreItemsSplit(s, i + |items.pre| + |Print(items.value)| + |items.post|, items.rest);
    }
  }

  lemma ItemText(items: Items, i: nat)
    requires items.Item?
    ensures PrintItems(items) == items.pre + (Print(items.value) + (items.post + MoreItems(items.rest)))
    ensures NextItem(items, i) == i + |items.pre| + |Print(items.value)| + |items.post| + 1
  {
    hide Print;
  }

  /** Each entry stands where its own key is printed. */
  ghost predicate AtItsKey(s: string, e: Entry, decode: Decoder) {
    && e.components != []
    && exists raw :: At(s, e.at, Quote(raw)) && Name(raw, decode) == e.components[|e.components| - 1]
  }

  ghost predicate AtTheirKeys(s: string, es: seq<Entry>, decode: Decoder) {
    forall e :: e in es ==> AtItsKey(s, e, decode)
  }

  lemma KeysAreInside(s: string, es: seq<Entry>, decode: Decoder)
    requires AtTheirKeys(s, es, decode)
    ensures Inside(s, es)
  {
  }

  lemma FirstAtItsKey(s: string, i: nat, m: Members, path: seq<string>, decode: Decoder)
    requires m.Member? && At(s, i + |m.pre|, Quote(m.key))
    ensures AtItsKey(s, Entry(path + [Name(m.key, decode)], i + |m.pre|, ValueText(m.value, decode)), decode)
  {
    hide At, Quote, Name, ValueText;
  }

  lemma KeysConcat(s: string, a: seq<Entry>, b: seq<Entry>, decode: Decoder)
    ensures AtTheirKeys(s, a + b, decode) <==> AtTheirKeys(s, a, decode) && AtTheirKeys(s, b, decode)
  {
    hide AtItsKey;
    assert forall e :: e in a + b <==> e in a || e in b;
  }

  lemma OneKey(s: string, e: Entry, decode: Decoder)
    ensures AtTheirKeys(s, [], decode) && (AtItsKey(s, e, decode) ==> AtTheirKeys(s, [e], decode))
  {
    hide AtItsKey;
  }

  /** Every key is seen where it stands, in every tree. */
  lemma {:induction false} SeenAtTheirKeys(s: string, i: nat, m: Members, path: seq<string>, depth: nat,
                                           decode: Decoder)
    requires At(s, i, PrintMembers(m))
    ensures AtTheirKeys(s, SeenMembers(m, path, depth, i, decode).entries, decode)
    decreases m, 1
  {
    hide *;
    SeenNothing(path, depth, i, decode);
    if m.NoMembers? {
      OneKey(s, Entry([], 0, ""), decode);
    } else {
      var name := Name(m.key, decode);
      var first := Entry(path + [name], i + |m.pre|, ValueText(m.value, decode));
      var entered := Entered(m.value, name, path, depth);
      Layout(s, i, m);
      LaidPieces(s, i, m);
      SeenMember(m, path, depth, i, decode);
      MoreIs(m, i);
      FirstAtItsKey(s, i, m, path, decode);
      OneKey(s, first, decode);
      ValueAtTheirKeys(s, ValueOffset(m, i), m.value, entered, depth, decode);
      var below := SeenValue(m.value, entered, depth, ValueOffset(m, i), decode);
      if m.rest.Member? {
        RestIsLaid(s, i, m);
        SeenAtTheirKeys(s, MoreOffset(m, i), m.rest, below.path, depth, decode);
      } else {
        SeenNothing(below.path, depth, MoreOffset(m, i), decode);
      }
      var more := SeenMembers(m.rest, below.path, depth, MoreOffset(m, i), decode);
      KeysConcat(s, below.entries, more.entries, decode);
      KeysConcat(s, [first], below.entries + more.entries, decode);
    }
  }

  lemma {:induction false} ValueAtTheirKeys(s: string, i: nat, v: Value, path: seq<string>, depth: nat, decode: Decoder)
    requires At(s, i, Print(v))
    ensures AtTheirKeys(s, SeenValue(v, path, depth, i, decode).entries, decode)
    decreases v, 0
  {
    hide *;
    SeenInside(v, path, depth, i, decode);
    OneKey(s, Entry([], 0, ""), decode);
    if v.Object? {
      ObjectLaid(s, i, v);
      SeenAtTheirKeys(s, i + (1 + |v.open|), v.members, path, depth + 1, decode);
    } else if v.Array? {
      ArrayLaid(s, i, v);
      ItemsAtTheirKeys(s, i + (1 + |v.open|), v.items, path, depth, decode);
    }
  }

  lemma {:induction false} ItemsAtTheirKeys(s: string, i: nat, items: Items, path: seq<string>, depth: nat,
                                            decode: Decoder)
    requires At(s, i, PrintItems(items))
    ensures AtTheirKeys(s, SeenItems(items, path, depth, i, decode).entries, decode)
    decreases items, 1
  {
    hide *;
    SeenNothing(path, depth, i, decode);
    OneKey(s, Entry([], 0, ""), decode);
    if items.Item? {
      ItemLaid(s, i, items);
      SeenItem(items, path, depth, i, decode);
      ItemText(items, i);
      ValueAtTheirKeys(s, i + |items.pre|, items.value, path, depth, decode);
      var first := SeenValue(items.value, path, depth, i + |items.pre|, decode);
      SeenNothing(first.path, depth, NextItem(items, i), decode);
      if items.rest.Item? {
        ItemsAtTheirKeys(s, NextItem(items, i), items.rest, first.path, depth, decode);
      }
      KeysConcat(s, first.entries, SeenItems(items.rest, first.path, depth, NextItem(items, i), decode).entries,
                 decode);
    }
  }

  lemma RestIsLaid(s: string, i: nat, m: Members)
    requires m.Member? && m.rest.Member? && Laid(s, i, m)
    ensures At(s, MoreOffset(m, i), PrintMembers(m.rest))
  {
    hide At, Print, Quote, ValueOffset;
    AtSplit(s, AfterOffset(m, i) + |m.after|, ",", PrintMembers(m.rest));
  }

  lemma MoreIs(m: Members, i: nat)
    requires m.Member?
    ensures MoreOffset(m, i) == ValueOffset(m, i) + |Print(m.value)| + |m.after| + 1
  {
    hide ValueOffset, Print;
  }

  // ---- Walking ----

  /** The state behind members of an object, its tables aside. */
  function AfterMembers(m: Members, st: ScanState, path: seq<string>, decode: Decoder): ScanState {
    st.(path := path, roots := if st.depth == 1 then st.roots + Names(m, decode) else st.roots)
  }

  lemma ClosesAfter(s: string, i: nat, m: Members)
    requires m.Member? && Laid(s, i, m) && IsSpace(m.after)
    requires m.rest.NoMembers? ==> AfterOffset(m, i) + |m.after| < |s| && s[AfterOffset(m, i) + |m.after|] == '}'
    ensures Closes(s, AfterOffset(m, i), m.after)
    ensures m.rest.Member? ==>
      && At(s, MoreOffset(m, i), PrintMembers(m.rest)) && |PrintMore(m.rest)| == 1 + |PrintMembers(m.rest)|
      && MoreOffset(m, i) <= |s| && IsPlain(s[MoreOffset(m, i) - 1])
    ensures MoreOffset(m, i) == AfterOffset(m, i) + |m.after| + 1
  {
    hide At, Print, Quote, ValueOffset;
    var next := AfterOffset(m, i) + |m.after|;
    if m.rest.Member? {
      AtSplit(s, next, ",", PrintMembers(m.rest));
      AtChar(s, next, ",", 0);
    }
    ClosesBy(s, AfterOffset(m, i), m.after);
  }

  /** A member is its key, then what stands below it, then the members behind it. */
  lemma MemberRecords(s: string, i: nat, m: Members, st: ScanState, below: seq<Entry>, more: seq<Entry>,
                      decode: Decoder)
    requires m.Member? && i + |m.pre| <= |s| && Inside(s, below) && Inside(s, more)
    ensures var name := Name(m.key, decode);
      var first := Entry(st.path + [name], i + |m.pre|, ValueText(m.value, decode));
      var st1 := AfterKey(s, i + |m.pre|, name, m.value, st, decode);
      var t := Record(s, st1.tables, below);
      && st1.depth == st.depth && st1.path == Entered(m.value, name, st.path, st.depth)
      && Inside(s, [first] + (below + more))
      && Record(s, st.tables, [first] + (below + more))
         == if Join(st.path + [name]) in st.tables.locations then Err(DuplicateKey(Join(st.path + [name])))
            else if t.Ok? then Record(s, t.value, more) else t
  {
    hide ValueText, Name, Record, Add, Entered, Join, Inside;
    var first := Entry(st.path + [Name(m.key, decode)], i + |m.pre|, ValueText(m.value, decode));
    var st1 := AfterKey(s, i + |m.pre|, Name(m.key, decode), m.value, st, decode);
    RecordConcat(s, st1.tables, below, more);
    RecordFirst(s, st.tables, first, below + more);
  }

  lemma RootsOf(m: Members, st: ScanState, name: string, k: nat, s: string, path: seq<string>, tables: Tables,
                decode: Decoder)
    requires m.Member? && k <= |s| && name == Name(m.key, decode)
    ensures var st1 := AfterKey(s, k, name, m.value, st, decode).(path := path, tables := tables);
      forall out ::
        AfterMembers(m.rest, st1, out, decode) == AfterMembers(m, st, out, decode).(line := st1.line, tables := tables)
    ensures AfterKey(s, k, name, m.value, st, decode).line == st.line
  {
    hide Name, ValueText, Add, Entered;
    assert Names(m, decode) == [name] + Names(m.rest, decode);
    assert (st.roots + [name]) + Names(m.rest, decode) == st.roots + ([name] + Names(m.rest, decode));
  }

  lemma NoMembersLeft(st: ScanState, path: seq<string>, decode: Decoder)
    ensures PrintMembers(NoMembers) == "" && PrintMore(NoMembers) == ""
    ensures AfterMembers(NoMembers, st, path, decode) == st.(path := path)
  {
    assert st.roots + [] == st.roots;
  }

  lemma {:induction false} WalkMembers(s: string, i: nat, m: Members, st: ScanState, decode: Decoder)
    requires MembersOk(m, decode) && At(s, i, PrintMembers(m)) && st.depth >= 1
    requires i + |PrintMembers(m)| < |s| && s[i + |PrintMembers(m)|] == '}'
    ensures var sight := SeenMembers(m, st.path, st.depth, i, decode);
      && Inside(s, sight.entries)
      && Walk(s, i, st, decode)
         == Continue(s, i + |PrintMembers(m)|, AfterMembers(m, st, sight.path, decode),
                     Record(s, st.tables, sight.entries), decode)
    decreases m, 1
  {
    hide *;
    SeenNothing(st.path, st.depth, i, decode);
    RecordNone(s, st.tables);
    NoMembersLeft(st, st.path, decode);
    if m.NoMembers? {
      ContinueOk(s, i, st.(path := st.path), st.tables, decode);
    } else {
      var v, a, after, more := ValueOffset(m, i), AfterOffset(m, i), m.after, MoreOffset(m, i);
      var name, k := Name(m.key, decode), i + |m.pre|;
      Layout(s, i, m);
      LaidPieces(s, i, m);
      MemberSpaces(m, decode);
      ClosesAfter(s, i, m);
      AtBound(s, i, m.pre);
      SeenMember(m, st.path, st.depth, i, decode);
      MoreIs(m, i);
      WalkToValue(s, i, m, st, decode);
      var st1 := AfterKey(s, k, name, m.value, st, decode);
      var below := SeenValue(m.value, Entered(m.value, name, st.path, st.depth), st.depth, v, decode);
      KeepsDepth(s, k, name, m.value, st, decode);
      WalkValue(s, v, m.value, after, st1, decode);
      SpaceIsPlain(s, a, after);
      AtBound(s, a, after);
      var rest := SeenMembers(m.rest, below.path, st.depth, more, decode);
      SeenAtTheirKeys(s, i, m, st.path, st.depth, decode);
      KeysAreInside(s, SeenMembers(m, st.path, st.depth, i, decode).entries, decode);
      InsideParts(s, [Entry(st.path + [name], k, ValueText(m.value, decode))], below.entries + rest.entries);
      InsideParts(s, below.entries, rest.entries);
      var t := Record(s, st1.tables, below.entries);
      if t.Ok? {
        var st2 := st1.(path := below.path, tables := t.value);
        ContinueOk(s, a, st1.(path := below.path), t.value, decode);
        WalkPlain(s, a, a + |after|, st2, decode);
        if m.rest.Member? {
          WalkPlain(s, a + |after|, more, st2, decode);
          WalkMembers(s, more, m.rest, st2, decode);
        } else {
          SeenNothing(below.path, st.depth, more, decode);
          RecordNone(s, t.value);
          NoMembersLeft(st2, st2.path, decode);
          ContinueOk(s, a + |after|, st2.(path := st2.path), t.value, decode);
        }
        RootsOf(m, st, name, k, s, below.path, t.value, decode);
        ContinueSame(s, i + |PrintMembers(m)|, AfterMembers(m.rest, st2, rest.path, decode),
                     AfterMembers(m, st, rest.path, decode), Record(s, t.value, rest.entries), decode);
      } else {
        ContinueErr(s, a, st1.(path := below.path), t, decode);
      }
      MemberRecords(s, i, m, st, below.entries, rest.entries, decode);
      ContinueErr(s, i + |PrintMembers(m)|, AfterMembers(m, st, rest.path, decode),
                  Record(s, st.tables, SeenMembers(m, st.path, st.depth, i, decode).entries), decode);
    }
  }

  lemma ContinueOk(s: string, j: nat, st: ScanState, t: Tables, decode: Decoder)
    requires j <= |s|
    ensures Continue(s, j, st, Ok(t), decode) == Walk(s, j, st.(tables := t), decode)
  {
    hide Walk;
  }

  lemma ContinueErr(s: string, j: nat, st: ScanState, t: Result<Tables, JsonError>, decode: Decoder)
    requires j <= |s|
    ensures t.Err? ==> Continue(s, j, st, t, decode) == Err(t.error)
  {
    hide Walk;
  }

  /** Only depth, path and roots matter for going on. */
  lemma ContinueSame(s: string, j: nat, a: ScanState, b: ScanState, t: Result<Tables, JsonError>, decode: Decoder)
    requires j <= |s| && a.depth == b.depth && a.path == b.path && a.roots == b.roots
    ensures Continue(s, j, a, t, decode) == Continue(s, j, b, t, decode)
  {
    hide Scan, LineAt;
  }

  lemma KeepsDepth(s: string, k: nat, name: string, v: Value, st: ScanState, decode: Decoder)
    requires k <= |s|
    ensures var st1 := AfterKey(s, k, name, v, st, decode);
      st1.depth == st.depth && st1.path == Entered(v, name, st.path, st.depth)
  {
    hide ValueText, Add, Entered;
  }

  lemma {:induction false} WalkValue(s: string, i: nat, v: Value, space: string, st: ScanState, decode: Decoder)
    requires ValueOk(v, decode) && At(s, i, Print(v)) && Closes(s, i + |Print(v)|, space) && st.depth >= 1
    ensures i + |Print(v)| <= |s|
    ensures var sight := SeenValue(v, st.path, st.depth, i, decode);
      && Inside(s, sight.entries)
      && Walk(s, i, st, decode)
         == Continue(s, i + |Print(v)|, st.(path := sight.path), Record(s, st.tables, sight.entries), decode)
    decreases v, 0
  {
    hide *;
    ValueFacts(v, decode);
    AtBound(s, i, Print(v));
    SeenInside(v, st.path, st.depth, i, decode);
    RecordNone(s, st.tables);
    var j := i + |Print(v)|;
    if v.Scalar? {
      ScalarIsPlain(s, i, v.text);
      WalkPlain(s, i, j, st, decode);
      ContinueHere(s, j, st, decode);
    } else if v.Quoted? {
      ClosesNoColon(s, j, space);
      WalkText(s, i, v.raw, st, decode);
      ContinueHere(s, j, st, decode);
    } else if v.Object? {
      WalkObject(s, i, v, st, decode);
    } else {
      WalkArray(s, i, v, st, decode);
    }
  }

  lemma ContinueHere(s: string, j: nat, st: ScanState, decode: Decoder)
    requires j <= |s|
    ensures Continue(s, j, st.(path := st.path), Ok(st.tables), decode) == Walk(s, j, st, decode)
  {
    hide Walk;
  }

  lemma WalkText(s: string, i: nat, raw: string, st: ScanState, decode: Decoder)
    requires At(s, i, Quote(raw)) && StringOk(raw, decode)
    requires i + |Quote(raw)| <= |s| && NoColonAt(s, i + |Quote(raw)|)
    ensures Walk(s, i, st, decode) == Walk(s, i + |Quote(raw)|, st, decode)
  {
    hide LineAt, Scan, Quote, StringOk, NoColonAt;
    SkipText(s, i, raw, st.(line := LineAt(s, i)), decode);
  }

  lemma {:induction false} WalkObject(s: string, i: nat, v: Value, st: ScanState, decode: Decoder)
    requires v.Object? && ValueOk(v, decode) && At(s, i, Print(v)) && st.depth >= 1
    ensures i + |Print(v)| <= |s|
    ensures var sight := SeenValue(v, st.path, st.depth, i, decode);
      && Inside(s, sight.entries)
      && Walk(s, i, st, decode)
         == Continue(s, i + |Print(v)|, st.(path := sight.path), Record(s, st.tables, sight.entries), decode)
    decreases v.members, 2
  {
    hide *;
    ValueFacts(v, decode);
    AtBound(s, i, Print(v));
    SeenInside(v, st.path, st.depth, i, decode);
    ObjectLaid(s, i, v);
    var start := i + (1 + |v.open|);
    var end := start + |PrintMembers(v.members)|;
    var inner := st.(depth := st.depth + 1);
    WalkOpen(s, i, st, decode);
    SpaceIsPlain(s, i + 1, v.open);
    WalkPlain(s, i + 1, start, inner, decode);
    WalkMembers(s, start, v.members, inner, decode);
    var sight := SeenMembers(v.members, st.path, st.depth + 1, start, decode);
    var t := Record(s, st.tables, sight.entries);
    var after := AfterMembers(v.members, inner, sight.path, decode);
    DeeperKeepsRoots(v.members, inner, sight.path, decode);
    if t.Ok? {
      ContinueOk(s, end, after, t.value, decode);
      WalkClose(s, end, after.(tables := t.value), decode);
      ContinueOk(s, end + 1, st.(path := Left(sight.path, st.depth)), t.value, decode);
    } else {
      ContinueErr(s, end, after, t, decode);
      ContinueErr(s, end + 1, st.(path := Left(sight.path, st.depth)), t, decode);
    }
  }

  lemma DeeperKeepsRoots(m: Members, st: ScanState, path: seq<string>, decode: Decoder)
    ensures st.depth != 1 ==> AfterMembers(m, st, path, decode) == st.(path := path)
    ensures st.depth == 1
      ==> AfterMembers(m, st, path, decode) == st.(path := path, roots := st.roots + Names(m, decode))
  {
    hide Names;
  }

  lemma {:induction false} WalkArray(s: string, i: nat, v: Value, st: ScanState, decode: Decoder)
    requires v.Array? && ValueOk(v, decode) && At(s, i, Print(v)) && st.depth >= 1
    ensures i + |Print(v)| <= |s|
    ensures var sight := SeenValue(v, st.path, st.depth, i, decode);
      && Inside(s, sight.entries)
      && Walk(s, i, st, decode)
         == Continue(s, i + |Print(v)|, st.(path := sight.path), Record(s, st.tables, sight.entries), decode)
    decreases v.items, 2
  {
    hide *;
    ValueFacts(v, decode);
    AtBound(s, i, Print(v));
    SeenInside(v, st.path, st.depth, i, decode);
    ArrayLaid(s, i, v);
    var start := i + (1 + |v.open|);
    var end := start + |PrintItems(v.items)|;
    BracketAndSpace(s, i, v.open);
    WalkPlain(s, i, start, st, decode);
    Bracket(s, end, "]");
    WalkItems(s, start, v.items, st, decode);
    var sight := SeenItems(v.items, st.path, st.depth, start, decode);
    var t := Record(s, st.tables, sight.entries);
    var after := st.(path := sight.path);
    if t.Ok? {
      ContinueOk(s, end, after, t.value, decode);
      WalkPlain(s, end, end + 1, after.(tables := t.value), decode);
      ContinueOk(s, end + 1, after, t.value, decode);
    } else {
      ContinueErr(s, end, after, t, decode);
      ContinueErr(s, end + 1, after, t, decode);
    }
  }

  lemma {:induction false} WalkItems(s: string, i: nat, items: Items, st: ScanState, decode: Decoder)
    requires ItemsOk(items, decode) && At(s, i, PrintItems(items)) && st.depth >= 1
    requires i + |PrintItems(items)| < |s| && s[i + |PrintItems(items)|] == ']'
    ensures var sight := SeenItems(items, st.path, st.depth, i, decode);
      && Inside(s, sight.entries)
      && Walk(s, i, st, decode)
         == Continue(s, i + |PrintItems(items)|, st.(path := sight.path), Record(s, st.tables, sight.entries), decode)
    decreases items, 1
  {
    hide *;
    SeenNothing(st.path, st.depth, i, decode);
    RecordNone(s, st.tables);
    NoMoreItems();
    if items.NoItems? {
      ContinueHere(s, i, st, decode);
    } else {
      var v, next, end := i + |items.pre|, NextItem(items, i), i + |PrintItems(items)|;
      var a := v + |Print(items.value)|;
      ItemsAtTheirKeys(s, i, items, st.path, st.depth, decode);
      KeysAreInside(s, SeenItems(items, st.path, st.depth, i, decode).entries, decode);
      ItemFacts(items, decode);
      ItemLaid(s, i, items);
      ItemText(items, i);
      SeenItem(items, st.path, st.depth, i, decode);
      SpaceIsPlain(s, i, items.pre);
      AtBound(s, v, Print(items.value));
      WalkPlain(s, i, v, st, decode);
      if items.rest.Item? {
        Bracket(s, next - 1, ",");
      }
      ClosesBy(s, a, items.post);
      WalkValue(s, v, items.value, items.post, st, decode);
      var first := SeenValue(items.value, st.path, st.depth, v, decode);
      var more := SeenItems(items.rest, first.path, st.depth, next, decode);
      var t := Record(s, st.tables, first.entries);
      var after := st.(path := first.path);
      InsideParts(s, first.entries, more.entries);
      RecordConcat(s, st.tables, first.entries, more.entries);
      if t.Ok? {
        var st1 := after.(tables := t.value);
        ContinueOk(s, a, after, t.value, decode);
        SpaceIsPlain(s, a, items.post);
        WalkPlain(s, a, next - 1, st1, decode);
        if items.rest.Item? {
          WalkPlain(s, next - 1, next, st1, decode);
          WalkItems(s, next, items.rest, st1, decode);
          ContinueSame(s, end, st1.(path := more.path), st.(path := more.path), Record(s, t.value, more.entries),
                       decode);
        } else {
          SeenNothing(first.path, st.depth, next, decode);
          RecordNone(s, t.value);
          ContinueOk(s, end, st.(path := more.path), t.value, decode);
        }
      } else {
        ContinueErr(s, a, after, t, decode);
        ContinueErr(s, end, st.(path := more.path), t, decode);
      }
    }
  }

  lemma InsideParts(s: string, a: seq<Entry>, b: seq<Entry>)
    requires Inside(s, a + b)
    ensures Inside(s, a) && Inside(s, b)
  {
    assert forall e :: e in a || e in b ==> e in a + b;
  }

  // ---- Whole documents ----

  /** An object between stretches of white space. */
  function Document(pre: string, open: string, members: Members, post: string): string {
    pre + (Print(Object(open, members)) + post)
  }

  function MembersOffset(pre: string, open: string): nat {
    |pre| + (1 + |open|)
  }

  lemma DocumentPieces(pre: string, open: string, members: Members, post: string)
    ensures var s, at := Document(pre, open, members, post), MembersOffset(pre, open);
      var end := at + |PrintMembers(members)|;
      && At(s, 0, pre) && At(s, |pre|, "{") && At(s, |pre| + 1, open) && At(s, at, PrintMembers(members))
      && end < |s| && s[end] == '}' && At(s, end + 1, post) && |s| == end + 1 + |post|
  {
    hide At, PrintMembers, Print, MembersOffset;
    MembersStart(pre, open);
    var s, at := Document(pre, open, members, post), MembersOffset(pre, open);
    var body := Print(Object(open, members));
    ObjectText(open, members);
    Whole(s);
    AtSplit(s, 0, pre, body + post);
    AtSplit(s, |pre|, body, post);
    ObjectPieces(s, |pre|, open, PrintMembers(members));
  }

  lemma ObjectPieces(s: string, at: nat, open: string, body: string)
    requires At(s, at, "{" + (open + (body + "}")))
    ensures At(s, at, "{") && At(s, at + 1, open) && At(s, at + 1 + |open|, body)
    ensures at + 1 + |open| + |body| < |s| && s[at + 1 + |open| + |body|] == '}'
  {
    hide At;
    AtSplit(s, at, "{", open + (body + "}"));
    AtSplit(s, at + 1, open, body + "}");
    AtSplit(s, at + 1 + |open|, body, "}");
    AtChar(s, at + 1 + |open| + |body|, "}", 0);
  }

  lemma ObjectText(open: string, members: Members)
    ensures Print(Object(open, members)) == "{" + (open + (PrintMembers(members) + "}"))
  {
    hide PrintMembers;
  }

  lemma Whole(s: string)
    ensures At(s, 0, s)
  {
  }

  lemma MembersStart(pre: string, open: string)
    ensures MembersOffset(pre, open) == |pre| + (1 + |open|)
  {
  }

  lemma WalkFromStart(s: string, decode: Decoder)
    ensures Walk(s, 0, START, decode) == Scan(s, 0, START, decode)
    ensures START == ScanState(0, [], 1, [], Tables(map[], map[]))
  {
    hide Scan;
  }

  lemma WalkEnd(s: string, st: ScanState, decode: Decoder)
    ensures Walk(s, |s|, st, decode) == Ok(st.(line := LineAt(s, |s|)))
  {
    hide LineAt;
  }

  /** What the scanner sees in a document, in order. */
  function SeenIn(pre: string, open: string, members: Members, decode: Decoder): seq<Entry> {
    SeenMembers(members, [], 1, MembersOffset(pre, open), decode).entries
  }

  lemma SeenInIs(pre: string, open: string, members: Members, decode: Decoder)
    ensures SeenIn(pre, open, members, decode) == SeenMembers(members, [], 1, MembersOffset(pre, open), decode).entries
  {
  }

  /** The whole scan records what it sees. */
  lemma ScanRecords(pre: string, open: string, members: Members, post: string, decode: Decoder)
    requires IsSpace(pre) && IsSpace(post) && ValueOk(Object(open, members), decode)
    ensures var s, es := Document(pre, open, members, post), SeenIn(pre, open, members, decode);
      var scan := Scan(s, 0, START, decode);
      && AtTheirKeys(s, es, decode) && Inside(s, es)
      && match Record(s, Tables(map[], map[]), es)
         case Err(error) => scan == Err(error)
         case Ok(t) => scan.Ok? && scan.value.roots == Names(members, decode) && scan.value.tables == t
  {
    hide *;
    var s, at := Document(pre, open, members, post), MembersOffset(pre, open);
    var end := at + |PrintMembers(members)|;
    var inner := START.(depth := 1);
    var sight := SeenMembers(members, [], 1, at, decode);
    SeenInIs(pre, open, members, decode);
    WalkFromStart(s, decode);
    MembersStart(pre, open);
    DocumentPieces(pre, open, members, post);
    ValueFacts(Object(open, members), decode);
    SeenAtTheirKeys(s, at, members, [], 1, decode);
    KeysAreInside(s, sight.entries, decode);
    AtBound(s, 0, pre);
    SpaceIsPlain(s, 0, pre);
    WalkPlain(s, 0, |pre|, START, decode);
    WalkOpen(s, |pre|, START, decode);
    SpaceIsPlain(s, |pre| + 1, open);
    WalkPlain(s, |pre| + 1, at, inner, decode);
    WalkMembers(s, at, members, inner, decode);
    var after := AfterMembers(members, inner, sight.path, decode);
    DeeperKeepsRoots(members, inner, sight.path, decode);
    assert [] + Names(members, decode) == Names(members, decode);
    var t := Record(s, Tables(map[], map[]), sight.entries);
    if t.Ok? {
      var last := after.(tables := t.value);
      ContinueOk(s, end, after, t.value, decode);
      WalkClose(s, end, last, decode);
      SpaceIsPlain(s, end + 1, post);
      var outside := last.(depth := 0, path := Left(sight.path, 0));
      WalkPlain(s, end + 1, |s|, outside, decode);
      WalkEnd(s, outside, decode);
    } else {
      ContinueErr(s, end, after, t, decode);
    }
  }

  /**
   The scanner's answer on every well-formed document, whatever its keys: it succeeds exactly when no
   path is seen twice, and then reports the root keys in order and in both tables exactly the keys it saw,
   each with its own line and its value's text; otherwise it names the first path that comes again.
   */
  lemma ScansWhatIsSeen(pre: string, open: string, members: Members, post: string, decode: Decoder)
    requires IsSpace(pre) && IsSpace(post) && ValueOk(Object(open, members), decode)
    ensures var s, es := Document(pre, open, members, post), SeenIn(pre, open, members, decode);
      var scan := Scan(s, 0, START, decode);
      && AtTheirKeys(s, es, decode) && Inside(s, es)
      && (scan.Ok? <==> Distinct(es))
      && (scan.Ok? ==> scan.value.roots == Names(members, decode) && Holds(s, scan.value.tables, es))
      && (scan.Err? ==> exists n: nat :: FirstClash(es, n) && scan.error == DuplicateKey(Join(es[n].components)))
  {
    hide *;
    var s, es := Document(pre, open, members, post), SeenIn(pre, open, members, decode);
    ScanRecords(pre, open, members, post, decode);
    HoldsNothing(s);
    RecordHolds(s, Tables(map[], map[]), [], es);
    assert [] + es == es;
  }

  /** Splitting the recorded path of a plain key at its dots gives the keys on the way back. */
  lemma PathsSplit(members: Members, at: nat, decode: Decoder)
    requires PlainKeys(members, decode)
    ensures forall e :: e in Entries(members, [], at, decode) ==> SplitDots(Join(e.components)) == e.components
  {
    hide *;
    NoDots();
    EntriesAreBelow(members, [], at, decode);
    forall e | e in Entries(members, [], at, decode) ensures SplitDots(Join(e.components)) == e.components {
      BelowHasNoDots(e, Names(members, decode));
      SplitOfJoin(e.components);
    }
  }

  lemma BelowHasNoDots(e: Entry, names: seq<string>)
    requires Below(e, [], names)
    ensures e.components != [] && DotFree(e.components)
  {
  }

  /** Without keys below arrays, and with plain keys outside, exactly the document's keys are found. */
  lemma FindsEveryKey(pre: string, open: string, members: Members, post: string, decode: Decoder)
    requires IsSpace(pre) && IsSpace(post) && ValueOk(Object(open, members), decode)
    requires PlainKeys(members, decode) && HiddenKeys(members) == 0
    ensures var s := Document(pre, open, members, post);
      var es := Entries(members, [], MembersOffset(pre, open), decode);
      var scan := Scan(s, 0, START, decode);
      && scan.Ok? && scan.value.roots == Names(members, decode)
      && Inside(s, es) && Holds(s, scan.value.tables, es) && AtTheirKeys(s, es, decode)
      && forall e :: e in es ==> SplitDots(Join(e.components)) == e.components
  {
    hide *;
    PathsSplit(members, MembersOffset(pre, open), decode);
    ScansWhatIsSeen(pre, open, members, post, decode);
    SeenInIs(pre, open, members, decode);
    SeenIsEntries(members, [], 1, MembersOffset(pre, open), decode);
    NoDots();
    EntriesAreDistinct(members, [], MembersOffset(pre, open), decode);
  }

  lemma NoDots()
    ensures DotFree([])
  {
  }

  lemma {:induction false} PathsOf(es: seq<Entry>) returns (paths: set<string>)
    requires Distinct(es)
    ensures paths == (set e | e in es :: Join(e.components)) && |paths| == |es|
  {
    hide Join;
    paths := {};
    if es != [] {
      var n := |es| - 1;
      assert es == es[..n] + [es[n]];
      DistinctParts(es[..n], es[n]);
      paths := PathsOf(es[..n]);
      paths := paths + {Join(es[n].components)};
    }
  }

  lemma DistinctParts(init: seq<Entry>, last: Entry)
    requires Distinct(init + [last])
    ensures Distinct(init) && forall e :: e in init ==> Join(e.components) != Join(last.components)
  {
    hide Join;
    var es := init + [last];
    forall i, j | 0 <= i < j < |init| ensures Join(init[i].components) != Join(init[j].components) {
      assert init[i] == es[i] && init[j] == es[j];
    }
    forall e | e in init ensures Join(e.components) != Join(last.components) {
      var i :| 0 <= i < |init| && init[i] == e;
      assert es[i] == e && es[|init|] == last;
    }
  }

  /** As many names in the tables as keys were seen. */
  lemma TablesCount(s: string, t: Tables, es: seq<Entry>)
    requires Inside(s, es) && Holds(s, t, es) && Distinct(es)
    ensures |t.locations.Keys| == |es|
  {
    hide Join, LocationAt, Distinct;
    var paths := PathsOf(es);
    assert t.locations.Keys == paths;
  }

  /**
   With plain keys outside arrays, the scanner finds exactly the keys outside arrays if and only if there
   are no keys below arrays.
   */
  lemma FindsExactlyTheKeysIff(pre: string, open: string, members: Members, post: string, decode: Decoder)
    requires IsSpace(pre) && IsSpace(post) && ValueOk(Object(open, members), decode)
    requires PlainKeys(members, decode)
    ensures var s := Document(pre, open, members, post);
      var es := Entries(members, [], MembersOffset(pre, open), decode);
      var scan := Scan(s, 0, START, decode);
      scan.Ok? && Inside(s, es) && Holds(s, scan.value.tables, es) <==> HiddenKeys(members) == 0
  {
    hide *;
    var s, at := Document(pre, open, members, post), MembersOffset(pre, open);
    var es, seen := Entries(members, [], at, decode), SeenIn(pre, open, members, decode);
    var scan := Scan(s, 0, START, decode);
    if HiddenKeys(members) == 0 {
      FindsEveryKey(pre, open, members, post, decode);
    } else if scan.Ok? && Inside(s, es) && Holds(s, scan.value.tables, es) {
      ScansWhatIsSeen(pre, open, members, post, decode);
      SeenInIs(pre, open, members, decode);
      EveryMemberIsSeen(members, [], 1, at, decode);
      EntriesAreCounted(members, [], at, decode);
      NoDots();
      EntriesAreDistinct(members, [], at, decode);
      TablesCount(s, scan.value.tables, seen);
      TablesCount(s, scan.value.tables, es);
    }
  }
}
