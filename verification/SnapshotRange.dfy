/**
 The line range recorded for an injected slice of a file. The source slices a `str` one byte before
 the end of the selection, which is only defined when the last selected character is one byte long.
 */
module SnapshotRange {
  import opened Wrappers
  import opened Utf8
  import opened Text
  import opened TextPositions

  datatype ManifestRange = ManifestRange(startLine: nat, endLine: nat, startByte: nat, endByte: nat)

  function Min(a: nat, b: nat): nat {
    if a < b then a else b
  }

  function LineFeeds(b: Bytes): nat {
    if b == [] then 0 else LineFeeds(b[..|b| - 1]) + if b[|b| - 1] == 0x0A then 1 else 0
  }

  /** `None` is the panic of a slice that does not end on a character boundary. */
  function RangeFromBytes(content: string, startByte: nat, endByte: nat): (r: Option<ManifestRange>) {
    var bytes := Encode(content);
    var startAnchor := Min(startByte, |bytes|);
    var endAnchor := Min(if endByte == 0 then 0 else endByte - 1, |bytes|);
    if !IsCharBoundary(bytes, startAnchor) then None
    else
      var startLine := 1 + LineFeeds(bytes[..startAnchor]);
      if endByte == 0 then Some(ManifestRange(startLine, startLine, startByte, endByte))
      else if !IsCharBoundary(bytes, endAnchor) then None
      else
        var endLine := 1 + LineFeeds(bytes[..endAnchor]);
        Some(ManifestRange(startLine, if endLine < startLine then startLine else endLine, startByte, endByte))
  }

  lemma {:induction false} LineFeedsConcat(a: Bytes, b: Bytes)
    ensures LineFeeds(a + b) == LineFeeds(a) + LineFeeds(b)
  {
    if b == [] {
      assert a + b == a;
    } else {
      LineFeedsConcat(a, b[..|b| - 1]);
      assert (a + b)[..|a + b| - 1] == a + b[..|b| - 1];
    }
  }

  lemma LineFeedsOfChar(c: char)
    ensures LineFeeds(EncodeChar(c)) == if c == '\n' then 1 else 0
  {
    var b := EncodeChar(c);
    assert forall i :: 0 <= i < |b| ==> (b[i] == 0x0A <==> c == '\n');
    assert b[..|b|] == b;
    var i := 0;
    while i < |b|
      invariant i <= |b|
      invariant LineFeeds(b[..i]) == if c == '\n' && i > 0 then 1 else 0
    {
      assert b[..i + 1][..i] == b[..i];
      i := i + 1;
    }
  }

  /** Counting line feed bytes counts line feed characters: no other encoding holds the byte 0x0A. */
  lemma {:induction false} LineFeedsAreNewlines(s: string)
    ensures LineFeeds(Encode(s)) == Newlines(s)
  {
    if s != [] {
      LineFeedsAreNewlines(s[1..]);
      LineFeedsOfChar(s[0]);
      LineFeedsConcat(EncodeChar(s[0]), Encode(s[1..]));
    }
  }

  lemma PrefixLineFeeds(content: string, k: nat)
    requires k <= |content|
    ensures ByteLen(content[..k]) <= ByteLen(content)
    ensures LineFeeds(Encode(content)[..ByteLen(content[..k])]) == Newlines(content[..k])
  {
    EncodeSplit(content, k);
    assert Encode(content)[..ByteLen(content[..k])] == Encode(content[..k]);
    LineFeedsAreNewlines(content[..k]);
  }

  /** Only a one-byte character leaves a prefix that is one byte shorter. */
  lemma OneByteShorter(content: string, j: nat, k: nat)
    requires 0 < k <= |content| && j <= |content|
    requires ByteLen(content[..j]) == ByteLen(content[..k]) - 1
    ensures CharLen(content[k - 1]) == 1
  {
    hide *;
    ByteLenStep(content, k - 1);
    if j < k {
      ByteLenMonotone(content, j, k - 1);
    } else {
      ByteLenMonotone(content, k, j);
    }
  }

  /** One byte before the end of the `k`-th character is a boundary exactly for one-byte characters. */
  lemma ByteBeforeEnd(content: string, k: nat)
    requires 0 < k <= |content|
    ensures 0 <= ByteLen(content[..k]) - 1 <= ByteLen(content)
    ensures IsCharBoundary(Encode(content), ByteLen(content[..k]) - 1) <==> CharLen(content[k - 1]) == 1
  {
    hide *;
    var last := ByteLen(content[..k]) - 1;
    ByteLenStep(content, k - 1);
    EncodeSplit(content, k);
    if CharLen(content[k - 1]) == 1 {
      PrefixIsBoundary(content, k - 1);
    } else if IsCharBoundary(Encode(content), last) {
      var j := BoundaryIsPrefix(content, last);
      OneByteShorter(content, j, k);
    }
  }

  lemma RangeStart(content: string, j: nat)
    requires j <= |content|
    ensures var anchor := Min(ByteLen(content[..j]), |Encode(content)|);
      && IsCharBoundary(Encode(content), anchor)
      && LineFeeds(Encode(content)[..anchor]) == Newlines(content[..j])
  {
    PrefixIsBoundary(content, j);
    PrefixLineFeeds(content, j);
  }

  lemma RangeEnd(content: string, k: nat)
    requires 0 < k <= |content|
    ensures ByteLen(content[..k]) > 0
    ensures var anchor := Min(ByteLen(content[..k]) - 1, |Encode(content)|);
      && (IsCharBoundary(Encode(content), anchor) <==> CharLen(content[k - 1]) == 1)
      && (CharLen(content[k - 1]) == 1 ==> LineFeeds(Encode(content)[..anchor]) == Newlines(content[..k - 1]))
  {
    hide Encode, ByteLen, LineFeeds, Newlines, CharLen, IsCharBoundary;
    ByteBeforeEnd(content, k);
    ByteLenStep(content, k - 1);
    PrefixLineFeeds(content, k - 1);
  }

  /**
   For a slice from character `j` to character `k`: the range is computed exactly when the slice end
   is the file start or follows a one-byte character, and then it names the line of the first
   character and the line of the last one.
   */
  lemma RangeDefinedIff(content: string, j: nat, k: nat)
    requires j <= k <= |content|
    ensures var r := RangeFromBytes(content, ByteLen(content[..j]), ByteLen(content[..k]));
      && (r.Some? <==> k == 0 || CharLen(content[k - 1]) == 1)
      && (r.Some? ==>
        && r.value.startByte == ByteLen(content[..j]) && r.value.endByte == ByteLen(content[..k])
        && r.value.startLine == 1 + Newlines(content[..j])
        && r.value.endLine == (if j == k then r.value.startLine else 1 + Newlines(content[..k - 1])))
  {
    hide Encode, ByteLen, LineFeeds, Newlines, CharLen, IsCharBoundary;
    RangeStart(content, j);
    if k > 0 {
      RangeEnd(content, k);
      if j < k {
        NewlinesMonotone(content, j, k - 1);
      } else {
        NewlinesMonotone(content, k - 1, k);
      }
    }
  }

  ghost predicate Accepted(content: string, position: TextPosition) {
    exists offset :: Denotes(content, position, offset)
  }

  /** A position has one index. */
  lemma OneIndex(content: string, position: TextPosition, a: nat, b: nat, j: nat, k: nat)
    requires AtIndex(content, position, a, j) && AtIndex(content, position, b, k)
    ensures j == k
  {
    hide ByteLen, PositionOf, Newlines;
    AcceptedOrder(content, position, position, a, b);
    AcceptedOrder(content, position, position, b, a);
    if j < k {
      ByteLenMonotone(content, j, k);
    } else if k < j {
      ByteLenMonotone(content, k, j);
    }
  }

  ghost predicate Selected(content: string, from: TextPosition, to: TextPosition, j: nat, k: nat) {
    && j <= k <= |content|
    && PositionOf(content, j) == from && PositionOf(content, k) == to
    && !AfterTrailingCr(content, j) && !AfterTrailingCr(content, k)
  }

  /** There is only one selection between two positions. */
  lemma OneSelection(content: string, from: TextPosition, to: TextPosition, j: nat, k: nat, j': nat, k': nat)
    requires Selected(content, from, to, j, k) && Selected(content, from, to, j', k')
    ensures j' == j && k' == k
  {
    hide ByteLen, PositionOf, Newlines;
    OneIndex(content, from, ByteLen(content[..j]), ByteLen(content[..j']), j, j');
    OneIndex(content, to, ByteLen(content[..k]), ByteLen(content[..k']), k, k');
  }

  /** The selection ends behind a character of more than one byte. */
  ghost predicate EndsInside(content: string, from: TextPosition, to: TextPosition) {
    exists j: nat, k: nat :: Selected(content, from, to, j, k) && k > 0 && CharLen(content[k - 1]) > 1
  }

  lemma EndsInsideIff(content: string, from: TextPosition, to: TextPosition, j: nat, k: nat)
    requires Selected(content, from, to, j, k)
    ensures EndsInside(content, from, to) <==> k > 0 && CharLen(content[k - 1]) > 1
  {
    hide ByteLen, PositionOf, Newlines, CharLen, AfterTrailingCr;
    if EndsInside(content, from, to) {
      var j': nat, k': nat :| Selected(content, from, to, j', k') && k' > 0 && CharLen(content[k' - 1]) > 1;
      OneSelection(content, from, to, j, k, j', k');
    }
  }

  lemma EndsInsideIsAccepted(content: string, from: TextPosition, to: TextPosition)
    requires EndsInside(content, from, to)
    ensures Accepted(content, from) && Accepted(content, to) && !Before(to, from)
  {
    hide ByteLen, PositionOf, Newlines, CharLen, AfterTrailingCr;
    var j: nat, k: nat :| Selected(content, from, to, j, k) && k > 0 && CharLen(content[k - 1]) > 1;
    var start, end := ByteLen(content[..j]), ByteLen(content[..k]);
    assert AtIndex(content, from, start, j) && AtIndex(content, to, end, k);
    assert Denotes(content, from, start) && Denotes(content, to, end);
    AcceptedOrder(content, to, from, end, start);
    ByteLenMonotone(content, j, k);
  }

  /** Two accepted positions in this order have a selection, which starts and ends at their offsets. */
  lemma SelectedBetween(content: string, from: TextPosition, to: TextPosition, start: nat, end: nat)
      returns (j: nat, k: nat)
    requires Denotes(content, from, start) && Denotes(content, to, end) && start <= end
    ensures j <= k <= |content| && Selected(content, from, to, j, k)
    ensures ByteLen(content[..j]) == start && ByteLen(content[..k]) == end
    ensures CharIndex(content, start) == j && CharIndex(content, end) == k
  {
    hide ByteLen, PositionOf, Newlines, CharIndex, AfterTrailingCr;
    j :| AtIndex(content, from, start, j);
    k :| AtIndex(content, to, end, k);
    if k < j {
      ByteLenMonotone(content, k, j);
    }
    CharIndexOfPrefix(content, j);
    CharIndexOfPrefix(content, k);
  }

  /** The text of the selection with its range. */
  ghost predicate Extracted(content: string, from: TextPosition, to: TextPosition, text: string, range: ManifestRange) {
    exists j: nat, k: nat :: (Selected(content, from, to, j, k)
      && text == content[j..k]
      && RangeFromBytes(content, ByteLen(content[..j]), ByteLen(content[..k])) == Some(range))
  }

  datatype RangeError = Position(error: PositionError) | StartAfterEnd | Undefined

  /** The slice between two editor positions, with its range; `Undefined` marks the panic. */
  method ExtractUtf16Range(content: string, from: TextPosition, to: TextPosition)
      returns (r: Result<(string, ManifestRange), RangeError>)
    ensures r.Ok? ==> Extracted(content, from, to, r.value.0, r.value.1)
    ensures r.Err? && r.error.Position? <==> !Accepted(content, from) || !Accepted(content, to)
    ensures r == Err(StartAfterEnd) <==> Accepted(content, from) && Accepted(content, to) && Before(to, from)
    ensures r == Err(Undefined) <==> EndsInside(content, from, to)
  {
    hide Encode, ByteLen, PositionOf, Newlines, RangeFromBytes, CharIndex, CharLen, Selected, EndsInside, Extracted,
         Denotes, AtIndex, Before;
    if EndsInside(content, from, to) {
      EndsInsideIsAccepted(content, from, to);
    }
    var start := PositionToByte(content, from);
    if start.Err? {
      return Err(Position(start.error));
    }
    var end := PositionToByte(content, to);
    if end.Err? {
      return Err(Position(end.error));
    }
    AcceptedOrder(content, to, from, end.value, start.value);
    if start.value > end.value {
      return Err(StartAfterEnd);
    }
    ghost var j, k := SelectedBetween(content, from, to, start.value, end.value);
    RangeDefinedIff(content, j, k);
    EndsInsideIff(content, from, to, j, k);
    var range := RangeFromBytes(content, start.value, end.value);
    if range.None? {
      return Err(Undefined);
    }
    var startIndex := CharIndex(content, start.value);
    var endIndex := CharIndex(content, end.value);
    IsExtracted(content, from, to, j, k, range.value);
    return Ok((content[startIndex..endIndex], range.value));
  }

  lemma IsExtracted(content: string, from: TextPosition, to: TextPosition, j: nat, k: nat, range: ManifestRange)
    requires Selected(content, from, to, j, k)
    requires RangeFromBytes(content, ByteLen(content[..j]), ByteLen(content[..k])) == Some(range)
    ensures Extracted(content, from, to, content[j..k], range)
  {
    hide ByteLen, PositionOf, Newlines, RangeFromBytes, AfterTrailingCr;
  }
}
