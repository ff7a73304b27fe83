/**
 JSON text as sections 2, 4, 5 and 7 of RFC 8259 lay it out: a syntax tree that keeps its white
 space, its printed form, and what a reader of the tree would list as its keys.
 */
module JsonTree {
  import opened Wrappers
  import opened Text

  /** `raw` is the text between the quotes; `open` the white space behind a bracket or brace. */
  datatype Value =
    | Scalar(text: string)
    | Quoted(raw: string)
    | Array(open: string, items: Items)
    | Object(open: string, members: Members)

  datatype Items =
    | NoItems
    | Item(pre: string, value: Value, post: string, rest: Items)

  datatype Members =
    | NoMembers
    | Member(pre: string, key: string, mid: string, post: string, value: Value, after: string, rest: Members)

  function Quote(raw: string): string {
    "\"" + (raw + "\"")
  }

  function Print(v: Value): (s: string)
    ensures s != "" || v.Scalar?
    decreases v, 0
  {
    match v
    case Scalar(text) => text
    case Quoted(raw) => Quote(raw)
    case Array(open, items) => "[" + (open + (PrintItems(items) + "]"))
    case Object(open, members) => "{" + (open + (PrintMembers(members) + "}"))
  }

  function PrintItems(items: Items): string
    decreases items, 0
  {
    match items
    case NoItems => ""
    case Item(pre, value, post, rest) =>
      pre + (Print(value) + (post + if rest.NoItems? then "" else "," + PrintItems(rest)))
  }

  function PrintMembers(members: Members): string
    decreases members, 0
  {
    match members
    case NoMembers => ""
    case Member(pre, key, mid, post, value, after, rest) =>
      pre + (Quote(key) + (mid + (":" + (post + (Print(value) + (after + PrintMore(rest)))))))
  }

  function PrintMore(rest: Members): string
    decreases rest, 1
  {
    if rest.NoMembers? then "" else "," + PrintMembers(rest)
  }

  // ---- Well-formedness ----

  predicate IsSpaceChar(c: char) {
    c == ' ' || c == '\t' || c == '\n' || c == '\r'
  }

  ghost predicate IsSpace(s: string) {
    forall i :: 0 <= i < |s| ==> IsSpaceChar(s[i])
  }

  /** No quote closes the string early, no escape is left open, no control character is inside. */
  predicate RawOk(raw: string, escaped: bool) {
    if raw == "" then !escaped
    else
      && raw[0] != '\n'
      && if escaped then RawOk(raw[1..], false)
         else if raw[0] == '\\' then RawOk(raw[1..], true)
         else raw[0] != '"' && RawOk(raw[1..], false)
  }

  /** Numbers and the literals: no structural character, no quote, no white space. */
  ghost predicate ScalarOk(text: string) {
    && text != ""
    && forall i :: 0 <= i < |text| ==>
      !IsWhitespace(text[i]) && text[i] !in {'{', '}', '[', ']', ',', ':', '"'}
  }

  type Decoder = string -> Option<string>

  ghost predicate StringOk(raw: string, decode: Decoder) {
    RawOk(raw, false) && decode(Quote(raw)).Some?
  }

  /** The key a raw string stands for; defined for well-formed strings. */
  function Name(raw: string, decode: Decoder): string {
    match decode(Quote(raw))
    case Some(name) => name
    case None => ""
  }

  /** White space where it may be, well-formed strings and scalars; keys are not restricted. */
  ghost predicate ValueOk(v: Value, decode: Decoder) {
    match v
    case Scalar(text) => ScalarOk(text)
    case Quoted(raw) => StringOk(raw, decode)
    case Array(open, items) => IsSpace(open) && ItemsOk(items, decode)
    case Object(open, members) => IsSpace(open) && MembersOk(members, decode)
  }

  ghost predicate ItemsOk(items: Items, decode: Decoder) {
    match items
    case NoItems => true
    case Item(pre, value, post, rest) =>
      IsSpace(pre) && IsSpace(post) && ValueOk(value, decode) && ItemsOk(rest, decode)
  }

  ghost predicate MembersOk(members: Members, decode: Decoder) {
    match members
    case NoMembers => true
    case Member(pre, key, mid, post, value, after, rest) =>
      && IsSpace(pre) && IsSpace(mid) && IsSpace(post) && IsSpace(after)
      && StringOk(key, decode) && ValueOk(value, decode) && MembersOk(rest, decode)
  }

  /** Outside arrays, keys have no dots, and no object has two equal keys. */
  ghost predicate PlainKeys(members: Members, decode: Decoder) {
    match members
    case NoMembers => true
    case Member(_, key, _, _, value, _, rest) =>
      && '.' !in Name(key, decode) && Name(key, decode) !in Names(rest, decode)
      && (value.Object? ==> PlainKeys(value.members, decode))
      && PlainKeys(rest, decode)
  }

  /** The keys of one object, in order. */
  function Names(members: Members, decode: Decoder): seq<string> {
    match members
    case NoMembers => []
    case Member(_, key, _, _, _, _, rest) => [Name(key, decode)] + Names(rest, decode)
  }

  lemma KeyFacts(m: Members, decode: Decoder)
    requires m.Member? && PlainKeys(m, decode)
    ensures '.' !in Name(m.key, decode) && Name(m.key, decode) !in Names(m.rest, decode)
    ensures Names(m, decode) == [Name(m.key, decode)] + Names(m.rest, decode)
    ensures PlainKeys(m.rest, decode) && (m.value.Object? ==> PlainKeys(m.value.members, decode))
  {
    hide Name;
  }

  // ---- Keys below arrays ----

  /** How many keys there are in an object, at any depth. */
  function CountMembers(members: Members): nat {
    match members
    case NoMembers => 0
    case Member(_, _, _, _, value, _, rest) => 1 + CountValue(value) + CountMembers(rest)
  }

  function CountValue(v: Value): nat {
    match v
    case Object(_, members) => CountMembers(members)
    case Array(_, items) => CountItems(items)
    case _ => 0
  }

  function CountItems(items: Items): nat {
    match items
    case NoItems => 0
    case Item(_, value, _, rest) => CountValue(value) + CountItems(rest)
  }

  /** How many of them stand below an array. */
  function HiddenKeys(members: Members): nat {
    match members
    case NoMembers => 0
    case Member(_, _, _, _, value, _, rest) =>
      (match value
       case Object(_, inner) => HiddenKeys(inner)
       case Array(_, items) => CountItems(items)
       case _ => 0)
      + HiddenKeys(rest)
  }

  // ---- What the tree says about its keys ----

  /** A key: the names on the way to it, the offset of its opening quote, and its value's text. */
  datatype Entry = Entry(components: seq<string>, at: nat, value: string)

  function KeyOffset(m: Members, at: nat): nat
    requires m.Member?
  {
    at + |m.pre|
  }

  function ValueOffset(m: Members, at: nat): nat
    requires m.Member?
  {
    at + |m.pre| + |Quote(m.key)| + |m.mid| + 1 + |m.post|
  }

  /** Every key outside arrays of an object that is printed from offset `at` on, in document order. */
  function Entries(members: Members, path: seq<string>, at: nat, decode: Decoder): seq<Entry> {
    match members
    case NoMembers => []
    case Member(pre, key, mid, post, value, after, rest) =>
      var here := path + [Name(key, decode)];
      var valueAt := ValueOffset(members, at);
      [Entry(here, at + |pre|, ValueText(value, decode))]
      + (EntriesBelow(value, here, valueAt, decode)
         + Entries(rest, path, valueAt + |Print(value)| + |after| + 1, decode))
  }

  lemma EntriesNone(path: seq<string>, at: nat, decode: Decoder)
    ensures Entries(NoMembers, path, at, decode) == []
  {
  }

  lemma ExtendDotFree(path: seq<string>, name: string)
    requires DotFree(path) && '.' !in name
    ensures DotFree(path + [name])
  {
  }

  lemma BelowOfObject(value: Value, path: seq<string>, at: nat, decode: Decoder)
    ensures EntriesBelow(value, path, at, decode)
      == if value.Object? then Entries(value.members, path, at + (1 + |value.open|), decode) else []
  {
    hide Entries;
  }

  lemma EntriesUnfold(m: Members, path: seq<string>, at: nat, decode: Decoder)
    requires m.Member?
    ensures var here, valueAt := path + [Name(m.key, decode)], ValueOffset(m, at);
      Entries(m, path, at, decode)
      == [Entry(here, at + |m.pre|, ValueText(m.value, decode))]
         + (EntriesBelow(m.value, here, valueAt, decode)
            + Entries(m.rest, path, valueAt + |Print(m.value)| + |m.after| + 1, decode))
  {
    hide ValueText, Print, Name, ValueOffset;
  }

  function EntriesBelow(value: Value, path: seq<string>, at: nat, decode: Decoder): seq<Entry> {
    match value
    case Object(open, members) => Entries(members, path, at + 1 + |open|, decode)
    case _ => []
  }

  /** The text of a scalar; for an array or object the preview of its opening. */
  function ValueText(v: Value, decode: Decoder): string {
    match v
    case Scalar(text) => text
    case Quoted(raw) => Name(raw, decode)
    case _ => Trim(Print(v)[..FirstDelimiter(Print(v), 0)])
  }

  /** The index of the first comma or closing bracket from `i` on, or the end. */
  function FirstDelimiter(s: string, i: nat): (k: nat)
    requires i <= |s|
    ensures i <= k <= |s|
    ensures k < |s| ==> s[k] == ',' || s[k] == '}' || s[k] == ']'
    ensures forall j :: i <= j < k ==> s[j] != ',' && s[j] != '}' && s[j] != ']'
    decreases |s| - i
  {
    if i == |s| || s[i] in {',', '}', ']'} then i else FirstDelimiter(s, i + 1)
  }

  // ---- Distinct paths ----

  /** All entries of an object lie below its path, through one of its own keys. */
  ghost predicate Below(e: Entry, path: seq<string>, names: seq<string>) {
    && |path| < |e.components|
    && e.components[..|path|] == path
    && e.components[|path|] in names
    && DotFree(e.components)
  }

  lemma {:induction false} EntriesAreBelow(members: Members, path: seq<string>, at: nat, decode: Decoder)
    requires PlainKeys(members, decode) && DotFree(path)
    ensures forall e :: e in Entries(members, path, at, decode) ==> Below(e, path, Names(members, decode))
  {
    hide *;
    EntriesNone(path, at, decode);
    if members.Member? {
      var value, rest := members.value, members.rest;
      var name, valueAt := Name(members.key, decode), ValueOffset(members, at);
      var here := path + [name];
      var innerAt := valueAt + if value.Object? then 1 + |value.open| else 0;
      var moreAt := valueAt + |Print(value)| + |members.after| + 1;
      var first := Entry(here, at + |members.pre|, ValueText(value, decode));
      var below, more := EntriesBelow(value, here, valueAt, decode), Entries(rest, path, moreAt, decode);
      var inner := if value.Object? then Names(value.members, decode) else [];
      EntriesUnfold(members, path, at, decode);
      KeyFacts(members, decode);
      ExtendDotFree(path, name);
      if value.Object? {
        EntriesAreBelow(value.members, here, innerAt, decode);
      }
      BelowOfObject(value, here, valueAt, decode);
      EntriesAreBelow(rest, path, moreAt, decode);
      AllBelow(first, below, more, path, name, inner, Names(rest, decode));
      assert forall e :: e in Entries(members, path, at, decode) ==> Below(e, path, Names(members, decode));
    }
  }

  lemma AllBelow(first: Entry, below: seq<Entry>, more: seq<Entry>, path: seq<string>, name: string,
                 inner: seq<string>, others: seq<string>)
    requires first.components == path + [name] && DotFree(path) && '.' !in name
    requires forall e :: e in below ==> Below(e, path + [name], inner)
    requires forall e :: e in more ==> Below(e, path, others)
    ensures forall e :: e in [first] + (below + more) ==> Below(e, path, [name] + others)
  {
    hide Below;
    KeyItself(first, path, name, others);
    forall e | e in below ensures Below(e, path, [name] + others) {
      BelowKey(e, path, name, inner, others);
    }
    forall e | e in more ensures Below(e, path, [name] + others) {
      BelowMore(e, path, [name], others);
    }
  }

  lemma BelowMore(e: Entry, path: seq<string>, first: seq<string>, names: seq<string>)
    requires Below(e, path, names)
    ensures Below(e, path, first + names)
  {
  }

  lemma BelowKey(e: Entry, path: seq<string>, name: string, inner: seq<string>, names: seq<string>)
    requires Below(e, path + [name], inner)
    ensures Below(e, path, [name] + names) && e.components[|path|] == name
    ensures |path| + 1 < |e.components|
  {
    var here := path + [name];
    assert e.components[..|path|] == e.components[..|here|][..|path|] == path;
    assert e.components[|path|] == e.components[..|here|][|path|] == name;
  }

  lemma KeyItself(e: Entry, path: seq<string>, name: string, names: seq<string>)
    requires e.components == path + [name] && DotFree(path) && '.' !in name
    ensures Below(e, path, [name] + names) && e.components[|path|] == name
    ensures |e.components| == |path| + 1
  {
    assert e.components[..|path|] == path;
  }

  /** No two entries have the same dotted path. */
  ghost predicate Distinct(es: seq<Entry>) {
    forall i, j :: 0 <= i < j < |es| ==> Join(es[i].components) != Join(es[j].components)
  }

  lemma {:induction false} EntriesAreDistinct(members: Members, path: seq<string>, at: nat, decode: Decoder)
    requires PlainKeys(members, decode) && DotFree(path)
    ensures Distinct(Entries(members, path, at, decode))
  {
    hide *;
    EmptyDistinct();
    EntriesNone(path, at, decode);
    if members.Member? {
      var value, rest := members.value, members.rest;
      var name, valueAt := Name(members.key, decode), ValueOffset(members, at);
      var here := path + [name];
      var innerAt := valueAt + if value.Object? then 1 + |value.open| else 0;
      var moreAt := valueAt + |Print(value)| + |members.after| + 1;
      var first := Entry(here, at + |members.pre|, ValueText(value, decode));
      var below, more := EntriesBelow(value, here, valueAt, decode), Entries(rest, path, moreAt, decode);
      var inner := if value.Object? then Names(value.members, decode) else [];
      EntriesUnfold(members, path, at, decode);
      KeyFacts(members, decode);
      ExtendDotFree(path, name);
      if value.Object? {
        EntriesAreDistinct(value.members, here, innerAt, decode);
        EntriesAreBelow(value.members, here, innerAt, decode);
      }
      BelowOfObject(value, here, valueAt, decode);
      EntriesAreDistinct(rest, path, moreAt, decode);
      EntriesAreBelow(rest, path, moreAt, decode);
      KeyThenBelowThenMore(first, below, more, path, name, inner, Names(rest, decode));
      assert Distinct(Entries(members, path, at, decode));
    }
  }

  lemma EmptyDistinct()
    ensures Distinct([])
  {
  }

  /** A key, the keys below it and the keys after it have different paths. */
  lemma KeyThenBelowThenMore(first: Entry, below: seq<Entry>, more: seq<Entry>, path: seq<string>, name: string,
                             inner: seq<string>, others: seq<string>)
    requires first.components == path + [name] && DotFree(path) && '.' !in name && name !in others
    requires Distinct(below) && forall e :: e in below ==> Below(e, path + [name], inner)
    requires Distinct(more) && forall e :: e in more ==> Below(e, path, others)
    ensures Distinct([first] + (below + more))
  {
    hide Below, Join, Distinct;
    KeyItself(first, path, name, []);
    assert [name] + [] == [name];
    forall e | e in below ensures Join(first.components) != Join(e.components) {
      BelowKey(e, path, name, inner, []);
      LongerDiffers(first, e, path, [name]);
    }
    forall e, f | e in [first] + below && f in more ensures Join(e.components) != Join(f.components) {
      if e in below {
        BelowKey(e, path, name, inner, []);
      }
      SiblingDiffers(e, f, path, name, [name], others);
    }
    DistinctConcat([first], below);
    DistinctConcat([first] + below, more);
    assert [first] + (below + more) == ([first] + below) + more;
  }

  lemma LongerDiffers(e: Entry, f: Entry, path: seq<string>, names: seq<string>)
    requires Below(e, path, names) && Below(f, path, names) && |e.components| < |f.components|
    ensures Join(e.components) != Join(f.components)
  {
    if Join(e.components) == Join(f.components) {
      JoinInjective(e.components, f.components);
    }
  }

  lemma SiblingDiffers(e: Entry, f: Entry, path: seq<string>, name: string, own: seq<string>, others: seq<string>)
    requires Below(e, path, own) && Below(f, path, others) && e.components[|path|] == name && name !in others
    ensures Join(e.components) != Join(f.components)
  {
    if Join(e.components) == Join(f.components) {
      JoinInjective(e.components, f.components);
    }
  }

  /** Every key is an entry or stands below an array. */
  lemma {:induction false} EntriesAreCounted(members: Members, path: seq<string>, at: nat, decode: Decoder)
    ensures |Entries(members, path, at, decode)| + HiddenKeys(members) == CountMembers(members)
  {
    hide Name, ValueText, Print;
    if members.Member? {
      var here, valueAt := path + [Name(members.key, decode)], ValueOffset(members, at);
      EntriesUnfold(members, path, at, decode);
      BelowOfObject(members.value, here, valueAt, decode);
      EntriesAreCounted(members.rest, path, valueAt + |Print(members.value)| + |members.after| + 1, decode);
      if members.value.Object? {
        EntriesAreCounted(members.value.members, here, valueAt + (1 + |members.value.open|), decode);
      }
    }
  }

  lemma DistinctConcat(a: seq<Entry>, b: seq<Entry>)
    requires Distinct(a) && Distinct(b)
    requires forall e, f :: e in a && f in b ==> Join(e.components) != Join(f.components)
    ensures Distinct(a + b)
  {
    forall i, j | 0 <= i < j < |a + b| ensures Join((a + b)[i].components) != Join((a + b)[j].components) {
      if i < |a| <= j {
        assert (a + b)[i] in a && (a + b)[j] in b;
      }
    }
  }
}
