/** The stretches of a document that the JSON scanner walks over without recording a key. */
module JsonWalk {
  import opened Wrappers
  import opened Text
  import opened Documents
  import opened JsonTree
  import opened JsonScan

  // ---- Pieces of the text ----

  ghost predicate At(s: string, i: nat, piece: string) {
    i + |piece| <= |s| && s[i..i + |piece|] == piece
  }

  lemma AtSplit(s: string, i: nat, a: string, b: string)
    requires At(s, i, a + b)
    ensures At(s, i, a) && At(s, i + |a|, b)
    ensures |a + b| == |a| + |b|
  {
    var piece := s[i..i + |a + b|];
    assert s[i..i + |a|] == piece[..|a|] == a;
    assert s[i + |a|..i + |a| + |b|] == piece[|a|..] == b;
  }

  lemma AtChar(s: string, i: nat, piece: string, k: nat)
    requires At(s, i, piece) && k < |piece|
    ensures i + k < |s| && s[i + k] == piece[k]
  {
    assert s[i..i + |piece|][k] == piece[k];
  }

  lemma LineAdvance(s: string, i: nat, j: nat)
    requires i <= j <= |s|
    ensures LineAt(s, j) == LineAt(s, i) + Newlines(s[i..j])
  {
    NewlinesMonotone(s, i, j);
  }

  lemma LineStep(s: string, i: nat)
    requires i < |s|
    ensures LineAt(s, i + 1) == LineAt(s, i) + if s[i] == '\n' then 1 else 0
  {
    NewlinesStep(s, i);
  }

  // ---- Stretches the scanner walks over ----

  predicate IsPlain(c: char) {
    c !in {'"', '{', '}'}
  }

  /** Characters that are neither quotes nor braces only advance the index and the line. */
  lemma {:induction false} SkipPlain(s: string, i: nat, j: nat, st: ScanState, decode: Decoder)
    requires i <= j <= |s| && st.line == LineAt(s, i)
    requires forall k :: i <= k < j ==> IsPlain(s[k])
    ensures Scan(s, i, st, decode) == Scan(s, j, st.(line := LineAt(s, j)), decode)
    decreases j - i
  {
    if i < j {
      hide LineAt;
      LineStep(s, i);
      assert IsPlain(s[i]);
      var next := st.(line := LineAt(s, i + 1));
      assert Step(s, i, st, decode) == Ok((i + 1, next));
      SkipPlain(s, i + 1, j, next, decode);
    }
  }

  lemma SpaceIsPlain(s: string, i: nat, space: string)
    requires At(s, i, space) && IsSpace(space)
    ensures forall k :: i <= k < i + |space| ==> IsPlain(s[k])
  {
    forall k | i <= k < i + |space| ensures IsPlain(s[k]) {
      AtChar(s, i, space, k - i);
      assert IsSpaceChar(space[k - i]);
    }
  }

  lemma {:induction false} SkipSpaceOver(s: string, i: nat, space: string)
    requires At(s, i, space) && IsSpace(space)
    requires i + |space| < |s| ==> !IsAsciiSpace(s[i + |space|])
    ensures SkipSpace(s, i) == i + |space|
    decreases |space|
  {
    if space != "" {
      AtChar(s, i, space, 0);
      assert IsSpaceChar(space[0]);
      AtSplit(s, i, [space[0]], space[1..]);
      assert space == [space[0]] + space[1..];
      SkipSpaceOver(s, i + 1, space[1..]);
    }
  }

  // ---- Strings ----

  lemma {:induction false} ClosingQuoteOf(s: string, i: nat, raw: string, escaped: bool)
    requires At(s, i, raw + "\"") && RawOk(raw, escaped)
    ensures ClosingQuote(s, i, escaped) == Some(i + |raw|)
    decreases |raw|
  {
    AtChar(s, i, raw + "\"", 0);
    if raw != "" {
      assert raw + "\"" == [raw[0]] + (raw[1..] + "\"");
      AtSplit(s, i, [raw[0]], raw[1..] + "\"");
      ClosingQuoteOf(s, i + 1, raw[1..], !escaped && raw[0] == '\\');
    }
  }

  lemma {:induction false} RawHasNoNewline(raw: string, escaped: bool)
    requires RawOk(raw, escaped)
    ensures '\n' !in raw
  {
    if raw != "" {
      RawHasNoNewline(raw[1..], !escaped && raw[0] == '\\');
      assert raw == [raw[0]] + raw[1..];
    }
  }

  lemma StringAtQuote(s: string, i: nat, raw: string, decode: Decoder)
    requires At(s, i, Quote(raw)) && StringOk(raw, decode)
    ensures i + |raw| + 2 <= |s| && s[i] == '"'
    ensures StringAt(s, i, decode) == Ok((Name(raw, decode), i + |raw| + 2))
    ensures LineAt(s, i + |raw| + 2) == LineAt(s, i)
  {
    AtSplit(s, i, "\"", raw + "\"");
    AtChar(s, i, Quote(raw), 0);
    ClosingQuoteOf(s, i + 1, raw, false);
    assert s[i..i + |raw| + 2] == Quote(raw);
    LineAdvance(s, i, i + |raw| + 2);
    RawHasNoNewline(raw, false);
    NoNewlines(Quote(raw));
  }

  /** No colon follows, white space aside: what stands before is not a key. */
  ghost predicate NoColonAt(s: string, j: nat)
    requires j <= |s|
  {
    var k := SkipSpace(s, j);
    k == |s| || s[k] != ':'
  }

  lemma StepOverText(s: string, i: nat, next: nat, name: string, st: ScanState, decode: Decoder)
    requires i < next <= |s| && s[i] == '"' && StringAt(s, i, decode) == Ok((name, next)) && NoColonAt(s, next)
    ensures Step(s, i, st, decode) == Ok((next, st))
  {
    hide StringAt, SkipSpace;
  }

  lemma ScanOver(s: string, i: nat, next: nat, st: ScanState, st': ScanState, decode: Decoder)
    requires i < next <= |s| && Step(s, i, st, decode) == Ok((next, st'))
    ensures Scan(s, i, st, decode) == Scan(s, next, st', decode)
  {
    hide Step;
  }

  lemma SkipText(s: string, i: nat, raw: string, st: ScanState, decode: Decoder)
    requires At(s, i, Quote(raw)) && StringOk(raw, decode) && st.line == LineAt(s, i)
    requires i + |Quote(raw)| <= |s| && NoColonAt(s, i + |Quote(raw)|)
    ensures Scan(s, i, st, decode)
      == Scan(s, i + |Quote(raw)|, st.(line := LineAt(s, i + |Quote(raw)|)), decode)
  {
    hide *;
    StringAtQuote(s, i, raw, decode);
    QuotedLength(raw);
    StepOverText(s, i, i + |raw| + 2, Name(raw, decode), st, decode);
    ScanOver(s, i, i + |raw| + 2, st, st, decode);
  }

  lemma QuotedLength(raw: string)
    ensures |Quote(raw)| == |raw| + 2
  {
  }

  // ---- What follows a value ----

  /** What follows a value inside an array or object: white space, then a comma or closing bracket. */
  ghost predicate Closes(s: string, j: nat, space: string) {
    && At(s, j, space) && IsSpace(space)
    && j + |space| < |s| && s[j + |space|] in {',', '}', ']'}
  }

  lemma ClosesNoColon(s: string, j: nat, space: string)
    requires Closes(s, j, space)
    ensures NoColonAt(s, j)
  {
    SkipSpaceOver(s, j, space);
  }

  lemma AtBound(s: string, i: nat, piece: string)
    requires At(s, i, piece)
    ensures i + |piece| <= |s|
  {
  }

  lemma ScalarIsPlain(s: string, i: nat, text: string)
    requires At(s, i, text) && ScalarOk(text)
    ensures forall k :: i <= k < i + |text| ==> IsPlain(s[k])
  {
    forall k | i <= k < i + |text| ensures IsPlain(s[k]) {
      AtChar(s, i, text, k - i);
    }
  }

  lemma BracketAndSpace(s: string, i: nat, open: string)
    requires At(s, i, "[") && At(s, i + 1, open) && IsSpace(open)
    ensures i + 1 + |open| <= |s|
    ensures forall k :: i <= k < i + 1 + |open| ==> IsPlain(s[k])
  {
    AtChar(s, i, "[", 0);
    SpaceIsPlain(s, i + 1, open);
  }

  lemma Bracket(s: string, i: nat, c: string)
    requires At(s, i, c) && (c == "]" || c == ",")
    ensures i < |s| && s[i] == c[0] && forall k :: i <= k < i + 1 ==> IsPlain(s[k])
  {
    AtChar(s, i, c, 0);
  }

  function MoreItems(rest: Items): string {
    if rest.NoItems? then "" else "," + PrintItems(rest)
  }

  lemma MoreItemsSplit(s: string, i: nat, rest: Items)
    requires At(s, i, MoreItems(rest)) && rest.Item?
    ensures At(s, i, ",") && At(s, i + 1, PrintItems(rest)) && |MoreItems(rest)| == 1 + |PrintItems(rest)|
  {
    AtSplit(s, i, ",", PrintItems(rest));
  }

  lemma ItemFacts(items: Items, decode: Decoder)
    requires items.Item? && ItemsOk(items, decode)
    ensures IsSpace(items.pre) && IsSpace(items.post) && ValueOk(items.value, decode) && ItemsOk(items.rest, decode)
    ensures PrintItems(items)
      == items.pre + (Print(items.value) + (items.post + MoreItems(items.rest)))
  {
    hide ValueOk, IsSpace;
  }

  lemma NoMoreItems()
    ensures MoreItems(NoItems) == "" && PrintItems(NoItems) == ""
  {
  }

  lemma ClosesBy(s: string, j: nat, space: string)
    requires At(s, j, space) && IsSpace(space)
    requires j + |space| < |s| && s[j + |space|] in {',', '}', ']'}
    ensures Closes(s, j, space)
  {
  }
}
