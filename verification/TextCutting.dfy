/**
 Cutting text into bounded pieces without losing or splitting a character: streamed output chunks,
 bounded prompt parts and display patches, the line anchors given to the model, and the line found
 for a symbol.
 */
module TextCutting {
  import opened Wrappers
  import opened Utf8
  import opened Text

  const OUTPUT_CHUNK_BYTES: nat := 16 * 1024
  const MAX_CHAT_EVENT_TEXT_BYTES: nat := 256 * 1024
  const CHUNK_BYTES: nat :=
    if OUTPUT_CHUNK_BYTES < MAX_CHAT_EVENT_TEXT_BYTES then OUTPUT_CHUNK_BYTES else MAX_CHAT_EVENT_TEXT_BYTES

  /** The longest prefix of whole characters that fits in `limit` bytes, as a character count. */
  ghost predicate LongestPrefix(s: string, limit: nat, k: nat) {
    && k <= |s|
    && ByteLen(s[..k]) <= limit
    && (k < |s| ==> limit < ByteLen(s[..k + 1]))
  }

  /** Stepping back from a byte limit to the nearest character boundary. */
  method BackToBoundary(s: string, limit: nat) returns (end: nat, ghost k: nat)
    requires limit <= ByteLen(s)
    ensures LongestPrefix(s, limit, k) && end == ByteLen(s[..k])
  {
    var bytes := Encode(s);
    end := limit;
    while end > 0 && !IsCharBoundary(bytes, end)
      invariant end <= limit
      invariant forall i :: end < i <= limit ==> !IsCharBoundary(bytes, i)
    {
      end := end - 1;
    }
    k := BoundaryIsPrefix(s, end);
    NoRoomForNext(s, limit, k, end);
  }

  lemma NoRoomForNext(s: string, limit: nat, k: nat, end: nat)
    requires limit <= ByteLen(s) && k <= |s| && ByteLen(s[..k]) == end <= limit
    requires forall i :: end < i <= limit ==> !IsCharBoundary(Encode(s), i)
    ensures LongestPrefix(s, limit, k)
  {
    hide IsCharBoundary, Encode, ByteLen;
    if k < |s| {
      PrefixIsBoundary(s, k + 1);
      ByteLenMonotone(s, k, k + 1);
    }
  }

  datatype OutputError = OutputEncoding

  /** What one streamed answer looks like to the client. */
  ghost predicate Chunked(text: string, chunks: seq<string>) {
    && Flatten(chunks) == text
    && forall i :: 0 <= i < |chunks| ==> chunks[i] != "" && ByteLen(chunks[i]) <= CHUNK_BYTES
  }

  /** No chunk could have held the first character of the next one. */
  ghost predicate Packed(chunks: seq<string>) {
    forall i {:trigger chunks[i]} :: 0 < i < |chunks| ==>
      chunks[i] != "" && CHUNK_BYTES < ByteLen(chunks[i - 1]) + CharLen(chunks[i][0])
  }

  /** Streaming has come this far: `remaining` is still to be sent. */
  ghost predicate Streamed(text: string, chunks: seq<string>, remaining: string) {
    && Flatten(chunks) + remaining == text
    && (forall i :: 0 <= i < |chunks| ==> chunks[i] != "" && ByteLen(chunks[i]) <= CHUNK_BYTES)
    && Packed(chunks)
    && (chunks != [] && remaining != "" ==> CHUNK_BYTES < ByteLen(chunks[|chunks| - 1]) + CharLen(remaining[0]))
  }

  /**
   Streaming a text in chunks. It terminates for every text, never reaches its encoding error, loses
   nothing, and fills each chunk as far as whole characters allow.
   */
  method EmitText(text: string) returns (r: Result<seq<string>, OutputError>)
    ensures r.Ok? && Chunked(text, r.value) && Packed(r.value)
  {
    hide ByteLen, CharLen, Encode, Packed;
    var chunks: seq<string> := [];
    var remaining := text;
    StreamStart(text);
    while remaining != ""
      invariant Streamed(text, chunks, remaining)
      decreases |remaining|
    {
      hide *;
      var cut := NextChunk(remaining);
      if cut == 0 {
        return Err(OutputEncoding);
      }
      StreamStep(text, chunks, remaining, cut);
      chunks := chunks + [remaining[..cut]];
      remaining := remaining[cut..];
    }
    assert Flatten(chunks) + "" == Flatten(chunks);
    return Ok(chunks);
  }

  lemma StreamStart(text: string)
    ensures Streamed(text, [], text)
  {
  }

  lemma StreamStep(text: string, chunks: seq<string>, remaining: string, cut: nat)
    requires Streamed(text, chunks, remaining) && 0 < cut <= |remaining|
    requires ByteLen(remaining[..cut]) <= CHUNK_BYTES
    requires cut < |remaining| ==> CHUNK_BYTES < ByteLen(remaining[..cut]) + CharLen(remaining[cut..][0])
    ensures Streamed(text, chunks + [remaining[..cut]], remaining[cut..])
  {
    hide ByteLen, CharLen, Flatten, Packed;
    AppendChunk(chunks, remaining, cut);
    PackedAppend(chunks, remaining[..cut]);
  }

  lemma PackedAppend(chunks: seq<string>, chunk: string)
    requires Packed(chunks) && chunk != ""
    requires chunks != [] ==> CHUNK_BYTES < ByteLen(chunks[|chunks| - 1]) + CharLen(chunk[0])
    ensures Packed(chunks + [chunk])
  {
    hide ByteLen, CharLen;
  }

  /** How many characters of the remaining text the next chunk takes; 0 would be the encoding error. */
  method NextChunk(remaining: string) returns (cut: nat)
    requires remaining != ""
    ensures 0 < cut <= |remaining| && ByteLen(remaining[..cut]) <= CHUNK_BYTES
    ensures cut < |remaining| ==> CHUNK_BYTES < ByteLen(remaining[..cut]) + CharLen(remaining[cut..][0])
  {
    hide Encode, ByteLen, CharIndex;
    var length := |Encode(remaining)|;
    var limit := if length < CHUNK_BYTES then length else CHUNK_BYTES;
    var end, k := BackToBoundary(remaining, limit);
    FirstCharFits(remaining, limit, k);
    CharIndexOfPrefix(remaining, k);
    cut := CharIndex(remaining, end);
    if cut < |remaining| {
      ByteLenStep(remaining, cut);
      assert remaining[cut..][0] == remaining[cut];
      ByteLenMonotone(remaining, cut + 1, |remaining|);
    }
    assert remaining[..|remaining|] == remaining;
  }

  /** A limit of four bytes, or the whole text, leaves room for at least one character. */
  lemma FirstCharFits(s: string, limit: nat, k: nat)
    requires s != "" && LongestPrefix(s, limit, k)
    requires limit >= 4 || limit == ByteLen(s)
    ensures k > 0 && ByteLen(s[..k]) > 0
  {
    ByteLenStep(s, 0);
    assert s[..0] == "";
    ByteLenMonotone(s, 1, |s|);
    assert s[..|s|] == s;
    ByteLenMonotone(s, 0, k);
  }

  lemma {:induction false} FlattenAppend(parts: seq<string>, last: string)
    ensures Flatten(parts + [last]) == Flatten(parts) + last
  {
    if parts == [] {
      assert Flatten([last]) == last + Flatten([]);
    } else {
      FlattenAppend(parts[1..], last);
      assert (parts + [last])[1..] == parts[1..] + [last];
    }
  }

  lemma AppendChunk(chunks: seq<string>, remaining: string, cut: nat)
    requires cut <= |remaining|
    ensures Flatten(chunks + [remaining[..cut]]) + remaining[cut..] == Flatten(chunks) + remaining
  {
    FlattenAppend(chunks, remaining[..cut]);
    assert remaining[..cut] + remaining[cut..] == remaining;
  }

  /** A bounded copy: the whole text when it fits, else its longest fitting prefix and a notice. */
  method TruncateUtf8(value: string, limit: nat, notice: string) returns (retained: string, truncated: bool)
    ensures truncated <==> limit < ByteLen(value)
    ensures !truncated ==> retained == value
    ensures truncated ==> exists k: nat :: LongestPrefix(value, limit, k) && retained == value[..k] + notice
  {
    if |Encode(value)| <= limit {
      return value, false;
    }
    var end, k := BackToBoundary(value, limit);
    CharIndexOfPrefix(value, k);
    return value[..CharIndex(value, end)] + notice, true;
  }

  // ---- Line anchors ----

  datatype TrustedEditLine = TrustedEditLine(start: nat, end: nat, content: string)

  /** The byte-exact line table of a file, as handed to the model. */
  method TrustedLineAnchors(content: string) returns (anchors: seq<TrustedEditLine>)
    ensures AnchorsTile(anchors, 0, ByteLen(content))
    ensures LineContents(anchors) == SplitInclusive(content)
    ensures Flatten(LineContents(anchors)) == content
  {
    hide ByteLen, Encode, SplitInclusive, Flatten, AnchorsTile;
    var start := 0;
    var lines := SplitInclusive(content);
    anchors := [];
    assert lines[..0] == [];
    AnchorStart();
    for i := 0 to |lines|
      invariant start == ByteLen(Flatten(lines[..i]))
      invariant AnchorsTile(anchors, 0, start)
      invariant LineContents(anchors) == lines[..i]
    {
      var end := start + |Encode(lines[i])|;
      AnchorStep(anchors, lines, i, start, end);
      anchors := anchors + [TrustedEditLine(start, end, lines[i])];
      start := end;
    }
    assert lines[..|lines|] == lines;
    FlattenSplit(content);
  }

  lemma AnchorStart()
    ensures AnchorsTile([], 0, 0) && ByteLen(Flatten([])) == 0
  {
  }

  lemma AnchorStep(anchors: seq<TrustedEditLine>, lines: seq<string>, i: nat, start: nat, end: nat)
    requires i < |lines| && IsLine(lines[i])
    requires start == ByteLen(Flatten(lines[..i])) && end == start + ByteLen(lines[i])
    requires AnchorsTile(anchors, 0, start)
    ensures AnchorsTile(anchors + [TrustedEditLine(start, end, lines[i])], 0, end)
    ensures end == ByteLen(Flatten(lines[..i + 1]))
  {
    hide ByteLen, Encode, Flatten, AnchorsTile;
    var before := lines[..i];
    assert lines[..i + 1] == before + [lines[i]];
    FlattenAppend(before, lines[i]);
    EncodeConcat(Flatten(before), lines[i]);
    TileAppend(anchors, 0, start, TrustedEditLine(start, end, lines[i]));
  }

  function LineContents(anchors: seq<TrustedEditLine>): seq<string> {
    seq(|anchors|, i requires 0 <= i < |anchors| => anchors[i].content)
  }

  /** The anchors cover `[from, to)` without gap or overlap, each as long as its content. */
  predicate AnchorsTile(anchors: seq<TrustedEditLine>, from: nat, to: nat) {
    if anchors == [] then from == to
    else
      && anchors[0].start == from < anchors[0].end
      && anchors[0].end - from == ByteLen(anchors[0].content)
      && AnchorsTile(anchors[1..], anchors[0].end, to)
  }

  lemma {:induction false} TileAppend(anchors: seq<TrustedEditLine>, from: nat, to: nat, last: TrustedEditLine)
    ensures last.start == to < last.end && last.end - to == ByteLen(last.content) && AnchorsTile(anchors, from, to)
      ==> AnchorsTile(anchors + [last], from, last.end)
    ensures !(last.start == to < last.end && last.end - to == ByteLen(last.content)) && AnchorsTile(anchors, from, to)
      ==> forall rest, end :: !AnchorsTile(anchors + [last] + rest, from, end)
  {
    hide ByteLen;
    if anchors == [] {
      assert anchors + [last] == [last];
      forall rest: seq<TrustedEditLine> ensures ([last] + rest)[0] == last { }
    } else {
      TileAppend(anchors[1..], anchors[0].end, to, last);
      assert (anchors + [last])[1..] == anchors[1..] + [last];
      forall rest: seq<TrustedEditLine>
        ensures (anchors + [last] + rest)[1..] == anchors[1..] + [last] + rest
          && (anchors + [last] + rest)[0] == anchors[0]
      { }
    }
  }

  /** The check applied to anchors from any origin: accepted exactly when they tile the file. */
  method ValidLineAnchors(bytes: nat, anchors: seq<TrustedEditLine>) returns (valid: bool)
    ensures valid <==> AnchorsTile(anchors, 0, bytes)
  {
    if bytes == 0 {
      TileGrows(anchors, 0, bytes);
      return anchors == [];
    }
    var next := 0;
    for i := 0 to |anchors|
      invariant AnchorsTile(anchors[..i], 0, next)
    {
      var anchor := anchors[i];
      TileAppend(anchors[..i], 0, next, anchor);
      assert anchors[..i + 1] == anchors[..i] + [anchor];
      if anchor.start != next || anchor.end <= anchor.start || anchor.end - anchor.start != |Encode(anchor.content)| {
        assert anchors == anchors[..i] + [anchor] + anchors[i + 1..];
        return false;
      }
      next := anchor.end;
    }
    assert anchors[..|anchors|] == anchors;
    TileEndUnique(anchors, 0, next, bytes);
    return next == bytes;
  }

  lemma {:induction false} TileGrows(anchors: seq<TrustedEditLine>, from: nat, to: nat)
    ensures AnchorsTile(anchors, from, to) ==> from <= to && (anchors != [] ==> from < to)
  {
    if anchors != [] {
      TileGrows(anchors[1..], anchors[0].end, to);
    }
  }

  lemma {:induction false} TileEndUnique(anchors: seq<TrustedEditLine>, from: nat, a: nat, b: nat)
    requires AnchorsTile(anchors, from, a)
    ensures AnchorsTile(anchors, from, b) <==> a == b
  {
    if anchors != [] {
      TileEndUnique(anchors[1..], anchors[0].end, a, b);
    }
  }

  // ---- The line of a symbol ----

  ghost predicate OccursAt(s: string, pattern: string, i: nat) {
    i + |pattern| <= |s| && s[i..i + |pattern|] == pattern
  }

  /** `str::find` of a string: its first occurrence. */
  method FindText(s: string, pattern: string) returns (r: Option<nat>)
    ensures r.Some? ==> OccursAt(s, pattern, r.value) && forall i :: 0 <= i < r.value ==> !OccursAt(s, pattern, i)
    ensures r.None? ==> forall i :: !OccursAt(s, pattern, i)
  {
    var i := 0;
    while i + |pattern| <= |s|
      invariant forall j :: 0 <= j < i ==> !OccursAt(s, pattern, j)
    {
      if s[i..i + |pattern|] == pattern {
        return Some(i);
      }
      i := i + 1;
    }
    return None;
  }

  ghost predicate FirstAt(s: string, pattern: string, i: nat) {
    OccursAt(s, pattern, i) && forall j :: 0 <= j < i ==> !OccursAt(s, pattern, j)
  }

  /** `start..end` is the line around index `at`, without its line feed. */
  ghost predicate LineAround(content: string, at: nat, start: nat, end: nat) {
    && start <= at <= end <= |content|
    && '\n' !in content[start..at] && (start > 0 ==> content[start - 1] == '\n')
    && '\n' !in content[at..end] && (end < |content| ==> content[end] == '\n')
  }

  /** The line that holds the first occurrence of a symbol. */
  method ExtractSymbolContext(content: string, symbol: string)
      returns (r: Option<string>, ghost at: nat, ghost start: nat)
    ensures r.None? <==> forall i :: !OccursAt(content, symbol, i)
    ensures r.Some? ==>
      && FirstAt(content, symbol, at)
      && LineAround(content, at, start, start + |r.value|)
      && r.value == content[start..start + |r.value|]
  {
    at, start := 0, 0;
    var found := FindText(content, symbol);
    if found.None? {
      return None, 0, 0;
    }
    var offset := found.value;
    var lineStart: nat := offset;
    while lineStart > 0 && content[lineStart - 1] != '\n'
      invariant lineStart <= offset && '\n' !in content[lineStart..offset]
    {
      assert content[lineStart - 1..offset] == [content[lineStart - 1]] + content[lineStart..offset];
      lineStart := lineStart - 1;
    }
    var newline := Find(content, '\n', offset);
    var lineEnd := if newline.Some? then newline.value else |content|;
    assert content[offset..|content|] == content[offset..];
    return Some(content[lineStart..lineEnd]), offset, lineStart;
  }

  /**
   Searching the file again for the extracted line, as the caller does to compute the range, finds
   that very line: no earlier place holds the same text.
   */
  lemma RefindsItsOwnLine(content: string, symbol: string, at: nat, start: nat, end: nat)
    requires symbol != "" && '\n' !in symbol
    requires FirstAt(content, symbol, at) && LineAround(content, at, start, end)
    ensures FirstAt(content, content[start..end], start)
  {
    var line := content[start..end];
    if end < at + |symbol| {
      InsideOccurrence(content, symbol, at, end);
    }
    forall i: nat | i < start ensures !OccursAt(content, line, i) {
      if OccursAt(content, line, i) {
        var earlier := i + (at - start);
        SliceOfSlice(content, i, i + |line|, at - start, at - start + |symbol|);
        SliceOfSlice(content, start, end, at - start, at - start + |symbol|);
        assert OccursAt(content, symbol, earlier);
      }
    }
  }

  lemma InsideOccurrence(s: string, pattern: string, at: nat, k: nat)
    requires OccursAt(s, pattern, at) && at <= k < at + |pattern|
    ensures s[k] in pattern
  {
    assert s[k] == s[at..at + |pattern|][k - at];
  }

  lemma SliceOfSlice(s: string, lo: nat, hi: nat, a: nat, b: nat)
    requires lo <= hi <= |s| && a <= b <= hi - lo
    ensures s[lo..hi][a..b] == s[lo + a..lo + b]
  {
    var x, y := s[lo..hi][a..b], s[lo + a..lo + b];
    assert |x| == |y| && forall i :: 0 <= i < |x| ==> x[i] == s[lo + a + i] == y[i];
  }

  /** Wherever the symbol is found, searching for its line finds that very line. */
  ghost predicate AlwaysRefound(symbol: string) {
    forall content: string, at: nat, start: nat, end: nat ::
      FirstAt(content, symbol, at) && LineAround(content, at, start, end) ==>
        FirstAt(content, content[start..end], start)
  }

  /** The first line feed of a file ends its first line. */
  lemma LineFeedIsRefound(content: string, at: nat, start: nat, end: nat)
    requires FirstAt(content, "\n", at) && LineAround(content, at, start, end)
    ensures FirstAt(content, content[start..end], start)
  {
    assert content[at..at + 1][0] == '\n';
    if start > 0 {
      assert content[start - 1..start] == "\n";
      assert OccursAt(content, "\n", start - 1);
    }
  }

  /** A letter that is neither of two characters, nor a line feed. */
  function OtherLetter(a: char, b: char): (c: char)
    ensures c != a && c != b && c != '\n'
  {
    if a != 'x' && b != 'x' then 'x' else if a != 'y' && b != 'y' then 'y' else 'z'
  }

  /** The letter that keeps a symbol `u + "\n" + v` from being found earlier than meant. */
  function Fence(u: string, v: string): (c: char)
    ensures c != '\n' && (u != "" ==> c != u[|u| - 1]) && (v != "" ==> c != v[0])
  {
    OtherLetter(if u == "" then '\n' else u[|u| - 1], if v == "" then '\n' else v[0])
  }

  /** A file whose first line starts with the text in front of the symbol's line feed. */
  function Decoy(u: string, v: string): string {
    var c := Fence(u, v);
    ([c] + u + [c] + "\n" + [c]) + (u + "\n" + v)
  }

  lemma DecoyParts(u: string, v: string)
    requires '\n' !in u
    ensures var content, c, n := Decoy(u, v), Fence(u, v), |u|;
      && |content| == 2 * n + 5 + |v|
      && content[0] == c && content[n + 1] == c && content[n + 2] == '\n' && content[n + 3] == c
      && content[2 * n + 4] == '\n'
      && (forall i :: 0 <= i < n ==> content[1 + i] == u[i] && content[n + 4 + i] == u[i])
      && content[1..1 + n] == u && content[n + 4..2 * n + 4] == u
      && content[n + 4..] == u + "\n" + v
      && forall i :: 0 <= i < 2 * n + 4 && content[i] == '\n' ==> i == n + 2
  {
  }

  lemma DecoyNotEarlier(u: string, v: string, j: nat)
    requires '\n' !in u && u + v != "" && j < |u| + 4
    ensures !OccursAt(Decoy(u, v), u + "\n" + v, j)
  {
    DecoyParts(u, v);
    assert (u + "\n" + v)[|u|] == '\n';
  }

  lemma DecoyMisplaces(u: string, v: string)
    requires '\n' !in u && u + v != ""
    ensures !AlwaysRefound(u + "\n" + v)
  {
    var content, c, n, symbol := Decoy(u, v), Fence(u, v), |u|, u + "\n" + v;
    DecoyParts(u, v);
    var at, start, end := n + 4, n + 3, 2 * n + 4;
    forall j | 0 <= j < at ensures !OccursAt(content, symbol, j) {
      DecoyNotEarlier(u, v, j);
    }
    assert FirstAt(content, symbol, at);
    assert LineAround(content, at, start, end) by {
      assert forall x :: x in content[start..at] ==> x == c;
    }
    var line := content[start..end];
    assert line == [c] + u == content[0..n + 1];
    assert OccursAt(content, line, 0);
  }

  /**
   Exactly when the search is reliable: the symbol has no line feed, or is nothing else. For any other
   symbol there is a file in which an earlier line is found instead.
   */
  lemma RefindsIff(symbol: string)
    requires symbol != ""
    ensures AlwaysRefound(symbol) <==> '\n' !in symbol || symbol == "\n"
  {
    if '\n' !in symbol {
      forall content: string, at: nat, start: nat, end: nat |
          FirstAt(content, symbol, at) && LineAround(content, at, start, end)
        ensures FirstAt(content, content[start..end], start)
      {
        RefindsItsOwnLine(content, symbol, at, start, end);
      }
    } else if symbol == "\n" {
      forall content: string, at: nat, start: nat, end: nat |
          FirstAt(content, symbol, at) && LineAround(content, at, start, end)
        ensures FirstAt(content, content[start..end], start)
      {
        LineFeedIsRefound(content, at, start, end);
      }
    } else {
      var k := Find(symbol, '\n', 0);
      assert symbol[0..] == symbol;
      var u, v := symbol[..k.value], symbol[k.value + 1..];
      assert symbol == u + "\n" + v && symbol[0..k.value] == u;
      assert u + v != "";
      DecoyMisplaces(u, v);
    }
  }
}
