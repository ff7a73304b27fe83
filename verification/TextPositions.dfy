/**
 Editor positions (line, UTF-16 column) against byte offsets of a UTF-8 file, and the line range a
 byte range covers. UTF-16 lengths follow section 2 of RFC 2781.
 */
module TextPositions {
  import opened Wrappers
  import opened Utf8
  import opened Text

  datatype TextPosition = TextPosition(line: nat, character: nat)

  datatype PositionError = LineOutside | SplitsSurrogatePair | ColumnOutside

  /** One UTF-16 unit, or the two of a surrogate pair. */
  function Utf16Len(c: char): (n: nat)
    ensures 1 <= n <= 2
  {
    if (c as int) < 0x1_0000 then 1 else 2
  }

  /** Characters beyond U+FFFF, which are the ones that need a surrogate pair. */
  function Supplementary(s: string): (n: nat) {
    if s == [] then 0 else (if (s[0] as int) > 0xFFFF then 1 else 0) + Supplementary(s[1..])
  }

  lemma {:induction false} SupplementarySnoc(s: string, c: char)
    ensures Supplementary(s + [c]) == Supplementary(s) + if (c as int) > 0xFFFF then 1 else 0
  {
    if s == [] {
      assert s + [c] == [c];
    } else {
      SupplementarySnoc(s[1..], c);
      assert (s + [c])[1..] == s[1..] + [c];
    }
  }

  /** One code unit for each character, and one more for each surrogate pair. */
  lemma {:induction false} UnitsAre(s: string)
    ensures Utf16Units(s) == |s| + Supplementary(s)
  {
    if s != [] {
      UnitsAre(s[..|s| - 1]);
      SupplementarySnoc(s[..|s| - 1], s[|s| - 1]);
      assert s == s[..|s| - 1] + [s[|s| - 1]];
    }
  }

  function Utf16Units(s: string): (n: nat)
    ensures |s| <= n
  {
    if s == [] then 0 else Utf16Units(s[..|s| - 1]) + Utf16Len(s[|s| - 1])
  }

  /** The index at which the line holding character index `k` starts. */
  function LineStart(content: string, k: nat): (start: nat)
    requires k <= |content|
    ensures start <= k && '\n' !in content[start..k]
    ensures start > 0 ==> content[start - 1] == '\n'
  {
    if k == 0 || content[k - 1] == '\n' then k
    else
      var start := LineStart(content, k - 1);
      assert content[start..k] == content[start..k - 1] + [content[k - 1]];
      start
  }

  /** The position an editor shows for the character at index `k`. */
  function PositionOf(content: string, k: nat): TextPosition
    requires k <= |content|
  {
    TextPosition(Newlines(content[..k]), Utf16Units(content[LineStart(content, k)..k]))
  }

  ghost predicate Before(p: TextPosition, q: TextPosition) {
    p.line < q.line || (p.line == q.line && p.character < q.character)
  }

  /** Index `k` stands right after the CR that ends its line (or the file). */
  predicate AfterTrailingCr(content: string, k: nat)
    requires k <= |content|
  {
    k > 0 && content[k - 1] == '\r' && (k == |content| || content[k] == '\n')
  }

  /** `byte` is the offset of the character shown at `position`, and not one after a trailing CR. */
  ghost predicate Denotes(content: string, position: TextPosition, offset: nat) {
    exists k :: AtIndex(content, position, offset, k)
  }

  ghost predicate AtIndex(content: string, position: TextPosition, offset: nat, k: nat) {
    k <= |content| && offset == ByteLen(content[..k])
    && PositionOf(content, k) == position && !AfterTrailingCr(content, k)
  }

  lemma SameLine(content: string, j: nat, k: nat)
    requires j <= k <= |content| && '\n' !in content[j..k]
    ensures LineStart(content, j) == LineStart(content, k)
    ensures Newlines(content[..j]) == Newlines(content[..k])
    decreases k - j
  {
    hide Newlines;
    NewlinesMonotone(content, j, k);
    NoNewlines(content[j..k]);
    if j < k {
      assert content[k - 1] == content[j..k][k - 1 - j];
      assert forall c :: c in content[j..k - 1] ==> c in content[j..k];
      SameLine(content, j, k - 1);
    }
  }

  /** The next character advances the column on the same line, or starts the next line. */
  lemma PositionStep(content: string, k: nat)
    requires k < |content|
    ensures content[k] == '\n' ==>
      PositionOf(content, k + 1) == TextPosition(PositionOf(content, k).line + 1, 0)
    ensures content[k] != '\n' ==>
      && LineStart(content, k + 1) == LineStart(content, k)
      && PositionOf(content, k + 1)
         == TextPosition(PositionOf(content, k).line, PositionOf(content, k).character + Utf16Len(content[k]))
  {
    NewlinesStep(content, k);
    if content[k] == '\n' {
      assert content[k + 1..k + 1] == "";
    } else {
      var start := LineStart(content, k);
      assert content[start..k + 1][..k - start] == content[start..k];
    }
  }

  /** Positions grow strictly with the character index. */
  lemma {:induction false} PositionsIncrease(content: string, j: nat, k: nat)
    requires j < k <= |content|
    ensures Before(PositionOf(content, j), PositionOf(content, k))
  {
    hide PositionOf;
    PositionStep(content, k - 1);
    if j < k - 1 {
      PositionsIncrease(content, j, k - 1);
    }
  }

  lemma SamePositionSameIndex(content: string, j: nat, k: nat)
    requires j <= |content| && k <= |content| && PositionOf(content, j) == PositionOf(content, k)
    ensures j == k
  {
    if j < k {
      PositionsIncrease(content, j, k);
    } else if k < j {
      PositionsIncrease(content, k, j);
    }
  }

  /** The index at which a line starts, skipping one line feed per line; `None` past the last line. */
  method StartOfLine(content: string, line: nat) returns (r: Option<nat>)
    ensures r.Some? ==>
      && r.value <= |content|
      && LineStart(content, r.value) == r.value
      && Newlines(content[..r.value]) == line
    ensures r.None? ==>
      && line > Newlines(content)
      && forall k :: 0 <= k <= |content| ==> PositionOf(content, k).line != line
  {
    var lineStart: nat := 0;
    for i := 0 to line
      invariant lineStart <= |content|
      invariant LineStart(content, lineStart) == lineStart && Newlines(content[..lineStart]) == i
    {
      var newline := Find(content, '\n', lineStart);
      if newline.None? {
        NewlinesSplit(content, lineStart);
        NoNewlines(content[lineStart..]);
        forall k: nat | k <= |content| ensures PositionOf(content, k).line != line {
          NewlinesMonotone(content, k, |content|);
          assert content[..|content|] == content;
        }
        return None;
      }
      SameLine(content, lineStart, newline.value);
      NewlinesStep(content, newline.value);
      lineStart := newline.value + 1;
    }
    return Some(lineStart);
  }

  /**
   The byte offset of a position, walking lines and then characters. Accepted are exactly the
   positions of characters (and line ends) other than those behind a line's trailing CR.
   */
  method PositionToByte(content: string, position: TextPosition) returns (r: Result<nat, PositionError>)
    ensures r.Ok? ==> Denotes(content, position, r.value)
    ensures r.Err? ==> forall offset :: !Denotes(content, position, offset)
    ensures r == Err(LineOutside) <==> position.line > Newlines(content)
    ensures r == Err(SplitsSurrogatePair) <==> exists k :: SplitAt(content, position, k)
  {
    var found := StartOfLine(content, position.line);
    if found.None? {
      return Err(LineOutside);
    }
    var lineStart := found.value;
    NewlinesSplit(content, lineStart);
    var newline := Find(content, '\n', lineStart);
    var lineEnd := if newline.Some? then newline.value else |content|;
    assert content[lineStart..|content|] == content[lineStart..];
    var logicalEnd := if lineEnd > lineStart && content[lineEnd - 1] == '\r' then lineEnd - 1 else lineEnd;
    var column := FindColumn(content, position, lineStart, logicalEnd);
    if column == Err(SplitsSurrogatePair) {
      SplitIsRejected(content, position);
      return Err(SplitsSurrogatePair);
    } else if column.Err? {
      PastTheLine(content, position, lineStart, lineEnd, logicalEnd);
      return Err(ColumnOutside);
    }
    var k := column.value;
    NotAfterCr(content, lineStart, lineEnd, logicalEnd, k);
    NotSplit(content, position, k);
    assert AtIndex(content, position, ByteLen(content[..k]), k);
    return Ok(ByteLen(content[..k]));
  }

  /** The character of a line at a UTF-16 column, up to and including the logical line end. */
  method FindColumn(content: string, position: TextPosition, lineStart: nat, logicalEnd: nat)
      returns (r: Result<nat, PositionError>)
    requires lineStart <= logicalEnd <= |content| && '\n' !in content[lineStart..logicalEnd]
    requires LineStart(content, lineStart) == lineStart && Newlines(content[..lineStart]) == position.line
    ensures r.Ok? ==> lineStart <= r.value <= logicalEnd && PositionOf(content, r.value) == position
    ensures r == Err(SplitsSurrogatePair) ==> exists k :: SplitAt(content, position, k)
    ensures r.Err? && !r.error.SplitsSurrogatePair? ==>
      && r == Err(ColumnOutside)
      && PositionOf(content, logicalEnd).line == position.line
      && PositionOf(content, logicalEnd).character < position.character
  {
    var utf16: nat, k: nat := 0, lineStart;
    assert content[lineStart..lineStart] == "";
    while k < logicalEnd
      invariant lineStart <= k <= logicalEnd
      invariant PositionOf(content, k) == TextPosition(position.line, utf16)
      invariant utf16 <= position.character
    {
      if utf16 == position.character {
        return Ok(k);
      }
      assert content[k] == content[lineStart..logicalEnd][k - lineStart];
      PositionStep(content, k);
      utf16, k := utf16 + Utf16Len(content[k]), k + 1;
      if utf16 > position.character {
        assert SplitAt(content, position, k - 1);
        return Err(SplitsSurrogatePair);
      }
    }
    return if utf16 == position.character then Ok(k) else Err(ColumnOutside);
  }

  /** A column inside a surrogate pair is the column of no character. */
  lemma NotSplit(content: string, position: TextPosition, k: nat)
    requires k <= |content| && PositionOf(content, k) == position
    ensures forall j :: !SplitAt(content, position, j)
  {
    forall j: nat | SplitAt(content, position, j) ensures false {
      PositionStep(content, j);
      if content[j] != '\n' {
        if k <= j {
          if k < j { PositionsIncrease(content, k, j); }
        } else if j + 1 < k {
          PositionsIncrease(content, j + 1, k);
        }
      }
    }
  }

  lemma SplitIsRejected(content: string, position: TextPosition)
    requires exists k :: SplitAt(content, position, k)
    ensures forall offset :: !Denotes(content, position, offset)
  {
    forall offset, k: nat | AtIndex(content, position, offset, k) ensures false {
      NotSplit(content, position, k);
    }
  }

  /** Past the logical end of a line there is nothing but, at most, the place behind its CR. */
  lemma PastTheLine(content: string, position: TextPosition, lineStart: nat, lineEnd: nat, logicalEnd: nat)
    requires lineStart <= logicalEnd <= lineEnd <= |content| && lineEnd <= logicalEnd + 1
    requires lineEnd == logicalEnd + 1 ==> content[logicalEnd] == '\r'
    requires lineEnd < |content| ==> content[lineEnd] == '\n'
    requires PositionOf(content, logicalEnd).line == position.line
    requires PositionOf(content, logicalEnd).character < position.character
    ensures forall offset :: !Denotes(content, position, offset)
    ensures forall k :: !SplitAt(content, position, k)
  {
    hide PositionOf, ByteLen;
    forall k: nat | k <= |content| && PositionOf(content, k) == position ensures AfterTrailingCr(content, k) {
      OnlyAfterCr(content, position, lineEnd, logicalEnd, k);
    }
    forall k: nat | SplitAt(content, position, k) ensures false {
      PositionStep(content, k);
      var split := PositionOf(content, k);
      if k < logicalEnd {
        PositionStep(content, logicalEnd - 1);
        if k + 1 < logicalEnd { PositionsIncrease(content, k + 1, logicalEnd); }
      } else {
        PositionStep(content, logicalEnd);
        if lineEnd < |content| {
          PositionStep(content, lineEnd);
          if lineEnd + 1 < k { PositionsIncrease(content, lineEnd + 1, k); }
        }
      }
    }
  }

  lemma OnlyAfterCr(content: string, position: TextPosition, lineEnd: nat, logicalEnd: nat, k: nat)
    requires logicalEnd <= lineEnd <= |content| && lineEnd <= logicalEnd + 1
    requires lineEnd == logicalEnd + 1 ==> content[logicalEnd] == '\r'
    requires lineEnd < |content| ==> content[lineEnd] == '\n'
    requires PositionOf(content, logicalEnd).line == position.line
    requires PositionOf(content, logicalEnd).character < position.character
    requires k <= |content| && PositionOf(content, k) == position
    ensures AfterTrailingCr(content, k)
  {
    hide PositionOf;
    if k < logicalEnd {
      PositionsIncrease(content, k, logicalEnd);
    } else if lineEnd < k {
      PositionStep(content, lineEnd);
      if logicalEnd < lineEnd { PositionStep(content, logicalEnd); }
      if lineEnd + 1 < k { PositionsIncrease(content, lineEnd + 1, k); }
    }
  }

  /** The column falls between the two units of the surrogate pair at `k`. */
  ghost predicate SplitAt(content: string, position: TextPosition, k: nat) {
    && k < |content|
    && PositionOf(content, k).line == position.line
    && PositionOf(content, k).character + 1 == position.character
    && Utf16Len(content[k]) == 2
  }

  lemma NotAfterCr(content: string, lineStart: nat, lineEnd: nat, logicalEnd: nat, k: nat)
    requires lineStart <= k <= logicalEnd <= lineEnd <= |content|
    requires lineStart > 0 ==> content[lineStart - 1] == '\n'
    requires '\n' !in content[lineStart..lineEnd]
    requires logicalEnd == if lineEnd > lineStart && content[lineEnd - 1] == '\r' then lineEnd - 1 else lineEnd
    ensures !AfterTrailingCr(content, k)
  {
    if k < lineEnd {
      assert content[k] == content[lineStart..lineEnd][k - lineStart];
    }
  }

  /** Every accepted position is a character boundary of the encoded file. */
  lemma AcceptedIsBoundary(content: string, position: TextPosition, offset: nat)
    requires Denotes(content, position, offset)
    ensures IsCharBoundary(Encode(content), offset)
  {
    var k: nat :| AtIndex(content, position, offset, k);
    PrefixIsBoundary(content, k);
  }

  /** Accepted positions and their offsets are in the same order; in particular the map is injective. */
  lemma AcceptedOrder(content: string, p: TextPosition, q: TextPosition, a: nat, b: nat)
    requires Denotes(content, p, a) && Denotes(content, q, b)
    ensures Before(p, q) <==> a < b
    ensures p == q <==> a == b
  {
    hide PositionOf, ByteLen, AfterTrailingCr;
    var j: nat :| AtIndex(content, p, a, j);
    var k: nat :| AtIndex(content, q, b, k);
    if j < k {
      ByteLenMonotone(content, j, k);
      PositionsIncrease(content, j, k);
    } else if k < j {
      ByteLenMonotone(content, k, j);
      PositionsIncrease(content, k, j);
    }
  }

  /**
   The inverse: each boundary of the encoded file is the offset of one character index, the editor
   position of that index leads back to it, and only boundaries behind a trailing CR are left out.
   */
  lemma BoundariesRoundTrip(content: string, offset: nat) returns (k: nat)
    requires offset <= ByteLen(content) && IsCharBoundary(Encode(content), offset)
    ensures k <= |content| && ByteLen(content[..k]) == offset
    ensures Denotes(content, PositionOf(content, k), offset) <==> !AfterTrailingCr(content, k)
  {
    k := BoundaryIsPrefix(content, offset);
    if AfterTrailingCr(content, k) {
      forall j | AtIndex(content, PositionOf(content, k), offset, j) ensures false {
        SamePositionSameIndex(content, j, k);
      }
    } else {
      assert AtIndex(content, PositionOf(content, k), offset, k);
    }
  }
}
