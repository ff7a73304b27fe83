/**
 What becomes of keys below arrays: the first key of an object in an array is seen as if it stood beside
 the array's own key, so it clashes with its neighbours or goes unnoticed under that name.
 */
module JsonHidden {
  import opened Wrappers
  import opened Text
  import opened Documents
  import opened Ordering
  import opened JsonTree
  import opened JsonScan
  import opened JsonTables
  import opened JsonSeen
  import opened JsonTheorem
  import opened JsonWalk

  // ---- The path in front of each item ----

  ghost predicate Extends(path: seq<string>, prefix: seq<string>) {
    |prefix| <= |path| && path[..|prefix|] == prefix
  }

  lemma {:induction false} MembersKeepPrefix(m: Members, path: seq<string>, depth: nat, at: nat, decode: Decoder,
                                             prefix: seq<string>)
    requires Extends(path, prefix) && |prefix| <= Pred(depth)
    ensures Extends(SeenMembers(m, path, depth, at, decode).path, prefix)
    decreases m, 1
  {
    hide SeenMembers, SeenValue, Print, Name, ValueText, ValueOffset;
    SeenNothing(path, depth, at, decode);
    if m.Member? {
      var v, valueAt := m.value, ValueOffset(m, at);
      var entered := Entered(v, Name(m.key, decode), path, depth);
      SeenMember(m, path, depth, at, decode);
      ValueKeepsPrefix(v, entered, depth, valueAt, decode, prefix);
      var below := SeenValue(v, entered, depth, valueAt, decode);
      MembersKeepPrefix(m.rest, below.path, depth, valueAt + |Print(v)| + |m.after| + 1, decode, prefix);
    }
  }

  lemma {:induction false} ValueKeepsPrefix(v: Value, path: seq<string>, depth: nat, at: nat, decode: Decoder,
                                            prefix: seq<string>)
    requires Extends(path, prefix) && |prefix| <= Pred(depth)
    ensures Extends(SeenValue(v, path, depth, at, decode).path, prefix)
    decreases v, 0
  {
    hide SeenMembers, SeenItems, SeenValue;
    SeenInside(v, path, depth, at, decode);
    if v.Object? {
      MembersKeepPrefix(v.members, path, depth + 1, at + (1 + |v.open|), decode, prefix);
    } else if v.Array? {
      ItemsKeepPrefix(v.items, path, depth, at + (1 + |v.open|), decode, prefix);
    }
  }

  lemma {:induction false} ItemsKeepPrefix(items: Items, path: seq<string>, depth: nat, at: nat, decode: Decoder,
                                           prefix: seq<string>)
    requires Extends(path, prefix) && |prefix| <= Pred(depth)
    ensures Extends(SeenItems(items, path, depth, at, decode).path, prefix)
    decreases items, 1
  {
    hide SeenItems, SeenValue, Print;
    SeenNothing(path, depth, at, decode);
    if items.Item? {
      var start := at + |items.pre|;
      SeenItem(items, path, depth, at, decode);
      ValueKeepsPrefix(items.value, path, depth, start, decode, prefix);
      var first := SeenValue(items.value, path, depth, start, decode);
      ItemsKeepPrefix(items.rest, first.path, depth, start + |Print(items.value)| + |items.post| + 1, decode, prefix);
    }
  }

  /** Leaving an item of an array outside arrays restores the path. */
  lemma ValueRestores(v: Value, path: seq<string>, depth: nat, at: nat, decode: Decoder)
    requires depth >= 1 && |path| == depth - 1
    ensures SeenValue(v, path, depth, at, decode).path == path
    decreases v, 0
  {
    hide SeenMembers, SeenItems, SeenValue;
    SeenInside(v, path, depth, at, decode);
    if v.Object? {
      MembersKeepPrefix(v.members, path, depth + 1, at + (1 + |v.open|), decode, path);
    } else if v.Array? {
      ItemsRestore(v.items, path, depth, at + (1 + |v.open|), decode);
    }
  }

  lemma {:induction false} ItemsRestore(items: Items, path: seq<string>, depth: nat, at: nat, decode: Decoder)
    requires depth >= 1 && |path| == depth - 1
    ensures SeenItems(items, path, depth, at, decode).path == path
    decreases items, 1
  {
    hide SeenItems, SeenValue, SeenMembers, Print;
    SeenNothing(path, depth, at, decode);
    if items.Item? {
      var start := at + |items.pre|;
      SeenItem(items, path, depth, at, decode);
      ValueRestores(items.value, path, depth, start, decode);
      ItemsRestore(items.rest, path, depth, start + |Print(items.value)| + |items.post| + 1, decode);
    }
  }

  // ---- Names that meet on one level ----

  /** The first keys of the objects in an array. */
  function FirstKeys(items: Items, decode: Decoder): seq<string>
    decreases items, 1
  {
    match items
    case NoItems => []
    case Item(_, value, _, rest) => FirstKeysOf(value, decode) + FirstKeys(rest, decode)
  }

  function FirstKeysOf(v: Value, decode: Decoder): seq<string>
    decreases v, 0
  {
    match v
    case Object(_, members) => if members.Member? then [Name(members.key, decode)] else []
    case Array(_, items) => FirstKeys(items, decode)
    case _ => []
  }

  /** The names seen beside each other: the keys of an object, and the first keys in its arrays. */
  function LevelNames(m: Members, decode: Decoder): seq<string> {
    match m
    case NoMembers => []
    case Member(_, key, _, _, value, _, rest) =>
      [Name(key, decode)] + (if value.Array? then FirstKeys(value.items, decode) else []) + LevelNames(rest, decode)
  }

  /** In some object outside arrays, two of these names are equal. */
  ghost predicate LevelClash(m: Members, decode: Decoder)
    decreases m, 1
  {
    !NoDuplicates(LevelNames(m, decode)) || InnerClash(m, decode)
  }

  ghost predicate InnerClash(m: Members, decode: Decoder)
    decreases m, 0
  {
    match m
    case NoMembers => false
    case Member(_, _, _, _, value, _, rest) =>
      (value.Object? && LevelClash(value.members, decode)) || InnerClash(rest, decode)
  }

  function PathsUnder(path: seq<string>, names: seq<string>): seq<string> {
    Map(name => Join(path + [name]), names)
  }

  function PathsSeen(es: seq<Entry>): seq<string> {
    Map((e: Entry) => Join(e.components), es)
  }

  lemma UnderConcat(path: seq<string>, a: seq<string>, b: seq<string>)
    ensures PathsUnder(path, a + b) == PathsUnder(path, a) + PathsUnder(path, b)
    ensures PathsUnder(path, []) == []
  {
    hide Join;
  }

  lemma SeenConcat(a: seq<Entry>, b: seq<Entry>)
    ensures PathsSeen(a + b) == PathsSeen(a) + PathsSeen(b)
  {
    hide Join;
  }

  lemma OneUnder(path: seq<string>, name: string, at: nat, value: string)
    ensures PathsSeen([Entry(path + [name], at, value)]) == PathsUnder(path, [name]) == [Join(path + [name])]
  {
    hide Join;
  }

  lemma PartsAmong(a: seq<string>, b: seq<string>, c: seq<string>, d: seq<string>)
    requires multiset(a) <= multiset(c) && multiset(b) <= multiset(d)
    ensures multiset(a + b) <= multiset(c + d)
  {
  }

  /** Every first key in an array is seen beside the array's own key. */
  lemma {:induction false} FirstKeysAreSeen(items: Items, path: seq<string>, depth: nat, at: nat, decode: Decoder)
    requires depth >= 1 && |path| == depth - 1
    ensures multiset(PathsUnder(path, FirstKeys(items, decode)))
      <= multiset(PathsSeen(SeenItems(items, path, depth, at, decode).entries))
    decreases items, 1
  {
    hide SeenItems, SeenValue, SeenMembers, Print, PathsUnder, PathsSeen, FirstKeysOf;
    SeenNothing(path, depth, at, decode);
    UnderConcat(path, [], []);
    if items.Item? {
      var v, start := items.value, at + |items.pre|;
      var next := start + |Print(v)| + |items.post| + 1;
      var first, keys := SeenValue(v, path, depth, start, decode), FirstKeysOf(v, decode);
      var more, others := SeenItems(items.rest, path, depth, next, decode), FirstKeys(items.rest, decode);
      SeenItem(items, path, depth, at, decode);
      ValueRestores(v, path, depth, start, decode);
      FirstOfValueIsSeen(v, path, depth, start, decode);
      FirstKeysAreSeen(items.rest, path, depth, next, decode);
      UnderConcat(path, keys, others);
      SeenConcat(first.entries, more.entries);
      PartsAmong(PathsUnder(path, keys), PathsUnder(path, others), PathsSeen(first.entries), PathsSeen(more.entries));
    }
  }

  lemma {:induction false} FirstOfValueIsSeen(v: Value, path: seq<string>, depth: nat, at: nat, decode: Decoder)
    requires depth >= 1 && |path| == depth - 1
    ensures multiset(PathsUnder(path, FirstKeysOf(v, decode)))
      <= multiset(PathsSeen(SeenValue(v, path, depth, at, decode).entries))
    decreases v, 0
  {
    hide SeenItems, SeenValue, SeenMembers, PathsUnder, PathsSeen, FirstKeys, Name;
    UnderConcat(path, [], []);
    SeenInside(v, path, depth, at, decode);
    if v.Array? {
      FirstKeysAreSeen(v.items, path, depth, at + (1 + |v.open|), decode);
    } else if v.Object? && v.members.Member? {
      FirstIsSeen(v.members, path, depth + 1, at + (1 + |v.open|), decode);
    }
  }

  lemma FirstIsSeen(m: Members, path: seq<string>, depth: nat, at: nat, decode: Decoder)
    requires m.Member?
    ensures multiset(PathsUnder(path, [Name(m.key, decode)]))
      <= multiset(PathsSeen(SeenMembers(m, path, depth, at, decode).entries))
  {
    hide SeenMembers, SeenValue, Print, Name, PathsUnder, PathsSeen, ValueText, ValueOffset, Entered;
    SeenMember(m, path, depth, at, decode);
    var name, valueAt := Name(m.key, decode), ValueOffset(m, at);
    var below := SeenValue(m.value, Entered(m.value, name, path, depth), depth, valueAt, decode);
    var more := SeenMembers(m.rest, below.path, depth, valueAt + |Print(m.value)| + |m.after| + 1, decode);
    OneUnder(path, name, at + |m.pre|, ValueText(m.value, decode));
    SeenConcat([Entry(path + [name], at + |m.pre|, ValueText(m.value, decode))], below.entries + more.entries);
  }

  lemma {:induction false} LevelIsSeen(m: Members, path: seq<string>, depth: nat, at: nat, decode: Decoder)
    requires depth >= 1 && |path| == depth - 1
    ensures multiset(PathsUnder(path, LevelNames(m, decode)))
      <= multiset(PathsSeen(SeenMembers(m, path, depth, at, decode).entries))
    decreases m, 1
  {
    hide SeenMembers, SeenItems, SeenValue, Print, Name, PathsUnder, PathsSeen, ValueText, ValueOffset, FirstKeys;
    SeenNothing(path, depth, at, decode);
    UnderConcat(path, [], []);
    if m.Member? {
      var v, name, valueAt := m.value, Name(m.key, decode), ValueOffset(m, at);
      var entered := Entered(v, name, path, depth);
      var below := SeenValue(v, entered, depth, valueAt, decode);
      var first := Entry(path + [name], at + |m.pre|, ValueText(v, decode));
      SeenMember(m, path, depth, at, decode);
      MemberRestores(m, path, depth, at, decode);
      var moreAt := valueAt + |Print(v)| + |m.after| + 1;
      LevelIsSeen(m.rest, path, depth, moreAt, decode);
      var more := SeenMembers(m.rest, path, depth, moreAt, decode);
      var keys := if v.Array? then FirstKeys(v.items, decode) else [];
      if v.Array? {
        SeenInside(v, path, depth, valueAt, decode);
        FirstKeysAreSeen(v.items, path, depth, valueAt + (1 + |v.open|), decode);
      }
      OneUnder(path, name, at + |m.pre|, ValueText(v, decode));
      UnderConcat(path, [name] + keys, LevelNames(m.rest, decode));
      UnderConcat(path, [name], keys);
      SeenConcat(below.entries, more.entries);
      SeenConcat([first], below.entries + more.entries);
    }
  }

  /** Behind a member the path is as in front of it. */
  lemma MemberRestores(m: Members, path: seq<string>, depth: nat, at: nat, decode: Decoder)
    requires m.Member? && depth >= 1 && |path| == depth - 1
    ensures var v, name := m.value, Name(m.key, decode);
      SeenValue(v, Entered(v, name, path, depth), depth, ValueOffset(m, at), decode).path == path
  {
    hide SeenMembers, SeenItems, SeenValue, Name, ValueOffset;
    var v, name, valueAt := m.value, Name(m.key, decode), ValueOffset(m, at);
    if v.Object? {
      BackOut(path, name, depth);
      SeenInside(v, path + [name], depth, valueAt, decode);
      MembersKeepPrefix(v.members, path + [name], depth + 1, valueAt + (1 + |v.open|), decode, path + [name]);
      var inner := SeenMembers(v.members, path + [name], depth + 1, valueAt + (1 + |v.open|), decode);
      assert inner.path[..depth][..depth - 1] == path;
    } else {
      ValueRestores(v, path, depth, valueAt, decode);
    }
  }

  lemma PathsDiffer(es: seq<Entry>)
    requires Distinct(es)
    ensures NoDuplicates(PathsSeen(es))
  {
    hide Join;
  }

  lemma NamesDiffer(path: seq<string>, names: seq<string>)
    requires NoDuplicates(PathsUnder(path, names))
    ensures NoDuplicates(names)
  {
    hide Join;
    forall i, j | 0 <= i < j < |names| ensures names[i] != names[j] {
      assert PathsUnder(path, names)[i] != PathsUnder(path, names)[j];
    }
  }

  /** What is seen of an object whose names meet is not distinct. */
  lemma NamesMeet(m: Members, path: seq<string>, depth: nat, at: nat, decode: Decoder)
    requires depth >= 1 && |path| == depth - 1 && !NoDuplicates(LevelNames(m, decode))
    ensures !Distinct(SeenMembers(m, path, depth, at, decode).entries)
  {
    hide *;
    var es := SeenMembers(m, path, depth, at, decode).entries;
    if Distinct(es) {
      LevelIsSeen(m, path, depth, at, decode);
      PathsDiffer(es);
      NoDuplicatesIsOrderFree(PathsSeen(es));
      NoDuplicatesIsOrderFree(PathsUnder(path, LevelNames(m, decode)));
      NamesDiffer(path, LevelNames(m, decode));
    }
  }

  lemma PartsDistinct(first: Entry, below: seq<Entry>, more: seq<Entry>)
    requires Distinct([first] + (below + more))
    ensures Distinct(below) && Distinct(more)
  {
    hide Join;
    var es := [first] + (below + more);
    forall i, j | 0 <= i < j < |below| ensures Join(below[i].components) != Join(below[j].components) {
      assert es[1 + i] == below[i] && es[1 + j] == below[j];
    }
    forall i, j | 0 <= i < j < |more| ensures Join(more[i].components) != Join(more[j].components) {
      assert es[1 + |below| + i] == more[i] && es[1 + |below| + j] == more[j];
    }
  }

  lemma {:induction false} ClashIsSeen(m: Members, path: seq<string>, depth: nat, at: nat, decode: Decoder)
    requires depth >= 1 && |path| == depth - 1 && InnerClash(m, decode)
    ensures !Distinct(SeenMembers(m, path, depth, at, decode).entries)
    decreases m
  {
    hide SeenMembers, SeenValue, Print, Name, ValueText, ValueOffset, Distinct, LevelNames, NoDuplicates, LevelClash;
    var v, name, valueAt := m.value, Name(m.key, decode), ValueOffset(m, at);
    var moreAt := valueAt + |Print(v)| + |m.after| + 1;
    SeenMember(m, path, depth, at, decode);
    MemberRestores(m, path, depth, at, decode);
    if v.Object? && LevelClash(v.members, decode) {
      BackOut(path, name, depth);
      SeenInside(v, path + [name], depth, valueAt, decode);
      LevelClashIs(v.members, decode);
      var start := valueAt + (1 + |v.open|);
      if NoDuplicates(LevelNames(v.members, decode)) {
        ClashIsSeen(v.members, path + [name], depth + 1, start, decode);
      } else {
        NamesMeet(v.members, path + [name], depth + 1, start, decode);
      }
    } else {
      ClashIsSeen(m.rest, path, depth, moreAt, decode);
    }
    if Distinct(SeenMembers(m, path, depth, at, decode).entries) {
      PartsDistinct(Entry(path + [name], at + |m.pre|, ValueText(v, decode)),
                    SeenValue(v, Entered(v, name, path, depth), depth, valueAt, decode).entries,
                    SeenMembers(m.rest, path, depth, moreAt, decode).entries);
    }
  }

  lemma LevelClashIs(m: Members, decode: Decoder)
    ensures LevelClash(m, decode) <==> !NoDuplicates(LevelNames(m, decode)) || InnerClash(m, decode)
  {
    hide LevelNames, NoDuplicates, InnerClash;
  }

  /**
   Two objects of one array that start with the same key, or one that starts with a key of the object
   around the array, make the scanner refuse the document.
   */
  lemma MeetingNamesAreRefused(pre: string, open: string, members: Members, post: string, decode: Decoder)
    requires IsSpace(pre) && IsSpace(post) && ValueOk(Object(open, members), decode)
    requires LevelClash(members, decode)
    ensures Scan(Document(pre, open, members, post), 0, START, decode).Err?
  {
    hide *;
    ScansWhatIsSeen(pre, open, members, post, decode);
    SeenInIs(pre, open, members, decode);
    LevelClashIs(members, decode);
    if NoDuplicates(LevelNames(members, decode)) {
      ClashIsSeen(members, [], 1, MembersOffset(pre, open), decode);
    } else {
      NamesMeet(members, [], 1, MembersOffset(pre, open), decode);
    }
  }

  // ---- One object in one array ----

  /** `{"a":[{"b":1}]}`, for any two keys. */
  function OneRecord(a: string, b: string): Members {
    var record := Object("", Member("", b, "", "", Scalar("1"), "", NoMembers));
    Member("", a, "", "", Array("", Item("", record, "", NoItems)), "", NoMembers)
  }

  lemma OneRecordOk(a: string, b: string, decode: Decoder)
    requires StringOk(a, decode) && StringOk(b, decode)
    ensures ValueOk(Object("", OneRecord(a, b)), decode) && IsSpace("")
    ensures HiddenKeys(OneRecord(a, b)) == 1 && Names(OneRecord(a, b), decode) == [Name(a, decode)]
  {
    hide StringOk, Name;
    var root := OneRecord(a, b);
    var list := root.value;
    var record := list.items.value;
    assert ScalarOk("1") && ValueOk(Scalar("1"), decode) && MembersOk(NoMembers, decode);
    assert MembersOk(record.members, decode) && ValueOk(record, decode);
    assert ItemsOk(list.items, decode) && ValueOk(list, decode);
    assert CountMembers(record.members) == 1 && CountValue(record) == 1 && CountItems(list.items) == 1;
  }

  lemma OneRecordSeen(a: string, b: string, decode: Decoder)
    ensures var es := SeenIn("", "", OneRecord(a, b), decode);
      |es| == 2 && es[0].components == [Name(a, decode)] && es[1].components == [Name(b, decode)]
  {
    hide ValueText, Name, Print, ValueOffset;
    var root := OneRecord(a, b);
    var list := root.value;
    var record := list.items.value;
    var at, valueAt := MembersOffset("", ""), ValueOffset(root, MembersOffset("", ""));
    SeenMember(root, [], 1, at, decode);
    SeenInside(list, [], 1, valueAt, decode);
    SeenItem(list.items, [], 1, valueAt + 1, decode);
    SeenInside(record, [], 1, valueAt + 1, decode);
    SeenMember(record.members, [], 2, valueAt + 2, decode);
    assert [] + [Name(a, decode)] == [Name(a, decode)] && [] + [Name(b, decode)] == [Name(b, decode)];
  }

  /** The inner key is taken for a root key: refused if it is one already, silently recorded otherwise. */
  lemma OneRecordIff(a: string, b: string, decode: Decoder)
    requires StringOk(a, decode) && StringOk(b, decode)
    ensures var scan := Scan(Document("", "", OneRecord(a, b), ""), 0, START, decode);
      && (scan.Ok? <==> Name(a, decode) != Name(b, decode))
      && (scan.Ok? ==>
            && scan.value.roots == [Name(a, decode)]
            && scan.value.tables.locations.Keys == {Name(a, decode), Name(b, decode)})
      && (scan.Err? ==> scan.error == DuplicateKey(Name(b, decode)))
  {
    OneRecordSeen(a, b, decode);
    assert Join([Name(a, decode)]) == Name(a, decode) && Join([Name(b, decode)]) == Name(b, decode);
    hide *;
    OneRecordOk(a, b, decode);
    ScansWhatIsSeen("", "", OneRecord(a, b), "", decode);
    TwoPaths(SeenIn("", "", OneRecord(a, b), decode), Name(a, decode), Name(b, decode));
    if Name(a, decode) != Name(b, decode) {
      TwoHeld(Document("", "", OneRecord(a, b), ""),
              Scan(Document("", "", OneRecord(a, b), ""), 0, START, decode).value.tables,
              SeenIn("", "", OneRecord(a, b), decode), Name(a, decode), Name(b, decode));
    }
  }

  lemma TwoPaths(es: seq<Entry>, a: string, b: string)
    requires |es| == 2 && Join(es[0].components) == a && Join(es[1].components) == b
    ensures Distinct(es) <==> a != b
    ensures forall n: nat :: FirstClash(es, n) ==> Join(es[n].components) == b
  {
    hide Join;
  }

  lemma TwoHeld(s: string, t: Tables, es: seq<Entry>, a: string, b: string)
    requires |es| == 2 && Join(es[0].components) == a && Join(es[1].components) == b
    requires Inside(s, es) && Holds(s, t, es)
    ensures t.locations.Keys == {a, b}
  {
    hide Join, LocationAt;
    assert forall e :: e in es <==> e == es[0] || e == es[1];
  }
}
