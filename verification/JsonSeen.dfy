/**
 How the scanner names the keys of any tree, as a function of the tree: below arrays the path is not
 extended, and on leaving an object it is cut by depth, so a key there is seen under another name.
 */
module JsonSeen {
  import opened Wrappers
  import opened Text
  import opened JsonTree
  import opened JsonScan

  /** The keys as they are recorded, and the path that is left behind. */
  datatype Sight = Sight(entries: seq<Entry>, path: seq<string>)

  /** The path inside a value: the key itself is kept if an object follows. */
  function Entered(v: Value, name: string, path: seq<string>, depth: nat): seq<string> {
    if v.Object? then Truncate(path, Pred(depth)) + [name] else path
  }

  /** The path behind a closing brace that leads back to this depth. */
  function Left(path: seq<string>, depth: nat): seq<string> {
    if |path| >= depth then Truncate(path, Pred(depth)) else path
  }

  function SeenMembers(m: Members, path: seq<string>, depth: nat, at: nat, decode: Decoder): Sight
    decreases m, 1
  {
    match m
    case NoMembers => Sight([], path)
    case Member(pre, key, _, _, value, after, rest) =>
      var name, valueAt := Name(key, decode), ValueOffset(m, at);
      var below := SeenValue(value, Entered(value, name, path, depth), depth, valueAt, decode);
      var more := SeenMembers(rest, below.path, depth, valueAt + |Print(value)| + |after| + 1, decode);
      Sight([Entry(path + [name], at + |pre|, ValueText(value, decode))] + (below.entries + more.entries), more.path)
  }

  function SeenValue(v: Value, path: seq<string>, depth: nat, at: nat, decode: Decoder): Sight
    decreases v, 0
  {
    match v
    case Object(open, members) =>
      var inner := SeenMembers(members, path, depth + 1, at + (1 + |open|), decode);
      Sight(inner.entries, Left(inner.path, depth))
    case Array(open, items) => SeenItems(items, path, depth, at + (1 + |open|), decode)
    case _ => Sight([], path)
  }

  function SeenItems(items: Items, path: seq<string>, depth: nat, at: nat, decode: Decoder): Sight
    decreases items, 1
  {
    match items
    case NoItems => Sight([], path)
    case Item(pre, value, post, rest) =>
      var first := SeenValue(value, path, depth, at + |pre|, decode);
      var more := SeenItems(rest, first.path, depth, at + |pre| + |Print(value)| + |post| + 1, decode);
      Sight(first.entries + more.entries, more.path)
  }

  // ---- One step at a time ----

  lemma SeenNothing(path: seq<string>, depth: nat, at: nat, decode: Decoder)
    ensures SeenMembers(NoMembers, path, depth, at, decode) == Sight([], path)
    ensures SeenItems(NoItems, path, depth, at, decode) == Sight([], path)
  {
  }

  lemma SeenMember(m: Members, path: seq<string>, depth: nat, at: nat, decode: Decoder)
    requires m.Member?
    ensures var name, valueAt := Name(m.key, decode), ValueOffset(m, at);
      var below := SeenValue(m.value, Entered(m.value, name, path, depth), depth, valueAt, decode);
      var more := SeenMembers(m.rest, below.path, depth, valueAt + |Print(m.value)| + |m.after| + 1, decode);
      SeenMembers(m, path, depth, at, decode)
      == Sight([Entry(path + [name], at + |m.pre|, ValueText(m.value, decode))] + (below.entries + more.entries),
               more.path)
  {
    hide ValueText, Print, Name, ValueOffset, Entered, SeenValue;
  }

  lemma SeenInside(v: Value, path: seq<string>, depth: nat, at: nat, decode: Decoder)
    ensures v.Object? ==>
      var inner := SeenMembers(v.members, path, depth + 1, at + (1 + |v.open|), decode);
      SeenValue(v, path, depth, at, decode) == Sight(inner.entries, Left(inner.path, depth))
    ensures v.Array? ==>
      SeenValue(v, path, depth, at, decode) == SeenItems(v.items, path, depth, at + (1 + |v.open|), decode)
    ensures v.Scalar? || v.Quoted? ==> SeenValue(v, path, depth, at, decode) == Sight([], path)
  {
    hide SeenMembers, SeenItems, Left;
  }

  lemma SeenItem(items: Items, path: seq<string>, depth: nat, at: nat, decode: Decoder)
    requires items.Item?
    ensures var first := SeenValue(items.value, path, depth, at + |items.pre|, decode);
      var next := at + |items.pre| + |Print(items.value)| + |items.post| + 1;
      var more := SeenItems(items.rest, first.path, depth, next, decode);
      SeenItems(items, path, depth, at, decode) == Sight(first.entries + more.entries, more.path)
  {
    hide Print, SeenValue;
  }

  // ---- Without keys below arrays, every key is seen under its own name ----

  /** Coming back from an object that was entered in the right place restores the path. */
  lemma BackOut(path: seq<string>, name: string, depth: nat)
    requires depth >= 1 && |path| == depth - 1
    ensures Truncate(path, Pred(depth)) + [name] == path + [name]
    ensures Left(path + [name], depth) == path && Left(path, depth) == path
  {
  }

  lemma {:induction false} SeenIsEntries(m: Members, path: seq<string>, depth: nat, at: nat, decode: Decoder)
    requires HiddenKeys(m) == 0 && depth >= 1 && |path| == depth - 1
    ensures SeenMembers(m, path, depth, at, decode) == Sight(Entries(m, path, at, decode), path)
    decreases m, 1
  {
    hide SeenMembers, SeenValue, Entries, EntriesBelow, Print, Name, ValueText, ValueOffset;
    SeenNothing(path, depth, at, decode);
    EntriesNone(path, at, decode);
    if m.Member? {
      var v, name, valueAt := m.value, Name(m.key, decode), ValueOffset(m, at);
      var here := path + [name];
      SeenMember(m, path, depth, at, decode);
      EntriesUnfold(m, path, at, decode);
      SeenInside(v, Entered(v, name, path, depth), depth, valueAt, decode);
      BelowOfObject(v, here, valueAt, decode);
      BackOut(path, name, depth);
      if v.Object? {
        SeenIsEntries(v.members, here, depth + 1, valueAt + (1 + |v.open|), decode);
      } else if v.Array? {
        KeylessItems(v.items, path, depth, valueAt + (1 + |v.open|), decode);
      }
      SeenIsEntries(m.rest, path, depth, valueAt + |Print(v)| + |m.after| + 1, decode);
    }
  }

  lemma {:induction false} KeylessItems(items: Items, path: seq<string>, depth: nat, at: nat, decode: Decoder)
    requires CountItems(items) == 0 && depth >= 1 && |path| == depth - 1
    ensures SeenItems(items, path, depth, at, decode) == Sight([], path)
    decreases items, 1
  {
    hide SeenItems, SeenValue, SeenMembers, Print;
    SeenNothing(path, depth, at, decode);
    if items.Item? {
      var v, start := items.value, at + |items.pre|;
      SeenItem(items, path, depth, at, decode);
      SeenInside(v, path, depth, start, decode);
      if v.Object? {
        assert CountValue(v) == 0 && CountMembers(v.members) == 0;
        assert v.members.NoMembers?;
        SeenNothing(path, depth + 1, start + (1 + |v.open|), decode);
        BackOut(path, "", depth);
      } else if v.Array? {
        KeylessItems(v.items, path, depth, start + (1 + |v.open|), decode);
      }
      KeylessItems(items.rest, path, depth, start + |Print(v)| + |items.post| + 1, decode);
    }
  }

  // ---- Every key is seen once ----

  lemma {:induction false} EveryMemberIsSeen(m: Members, path: seq<string>, depth: nat, at: nat, decode: Decoder)
    ensures |SeenMembers(m, path, depth, at, decode).entries| == CountMembers(m)
    decreases m, 1
  {
    hide SeenMembers, SeenValue, Print, Name, ValueText, ValueOffset, Entered;
    SeenNothing(path, depth, at, decode);
    if m.Member? {
      var v, valueAt := m.value, ValueOffset(m, at);
      var entered := Entered(v, Name(m.key, decode), path, depth);
      SeenMember(m, path, depth, at, decode);
      EveryValueIsSeen(v, entered, depth, valueAt, decode);
      var below := SeenValue(v, entered, depth, valueAt, decode);
      EveryMemberIsSeen(m.rest, below.path, depth, valueAt + |Print(v)| + |m.after| + 1, decode);
    }
  }

  lemma {:induction false} EveryValueIsSeen(v: Value, path: seq<string>, depth: nat, at: nat, decode: Decoder)
    ensures |SeenValue(v, path, depth, at, decode).entries| == CountValue(v)
    decreases v, 0
  {
    hide SeenMembers, SeenItems, SeenValue, Left;
    SeenInside(v, path, depth, at, decode);
    if v.Object? {
      EveryMemberIsSeen(v.members, path, depth + 1, at + (1 + |v.open|), decode);
    } else if v.Array? {
      EveryItemIsSeen(v.items, path, depth, at + (1 + |v.open|), decode);
    }
  }

  lemma {:induction false} EveryItemIsSeen(items: Items, path: seq<string>, depth: nat, at: nat, decode: Decoder)
    ensures |SeenItems(items, path, depth, at, decode).entries| == CountItems(items)
    decreases items, 1
  {
    hide SeenItems, SeenValue, Print;
    SeenNothing(path, depth, at, decode);
    if items.Item? {
      var start := at + |items.pre|;
      SeenItem(items, path, depth, at, decode);
      EveryValueIsSeen(items.value, path, depth, start, decode);
      var first := SeenValue(items.value, path, depth, start, decode);
      EveryItemIsSeen(items.rest, first.path, depth, start + |Print(items.value)| + |items.post| + 1, decode);
    }
  }
}
