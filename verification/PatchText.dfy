/**
 The patch printed for a created file, its line and hunk counts, and the statistics of a patch
 assembled from per-file patches.
 */
module PatchText {
  import opened Text

  const NOTE := "\\ No newline at end of file\n"
  const HUNK := "@@ "

  function SlashPath(path: string): (r: string)
    ensures |r| == |path| && ('\n' in r ==> '\n' in path)
  {
    if path == "" then "" else [if path[0] == '\\' then '/' else path[0]] + SlashPath(path[1..])
  }

  /** Back slashes are turned, and nothing else. */
  lemma {:induction false} SlashAt(path: string, i: nat)
    requires i < |path|
    ensures SlashPath(path)[i] == if path[i] == '\\' then '/' else path[i]
  {
    if i > 0 {
      SlashAt(path[1..], i - 1);
    }
  }

  /** How many lines a text has; an unterminated last line counts. */
  function LineCount(value: string): nat {
    if value == "" then 0 else Newlines(value) + if EndsWithNewline(value) then 0 else 1
  }

  /** The four lines before the hunk. */
  function PreambleLines(path: string): seq<string> {
    ["diff --git a/" + path + " b/" + path + "\n", "new file mode 100644\n", "--- /dev/null\n", "+++ b/" + path + "\n"]
  }

  function Preamble(path: string): string {
    Flatten(PreambleLines(path))
  }

  function HunkHeader(count: nat): string {
    "@@ -0,0 +1," + Decimal(count) + " @@\n"
  }

  function Added(lines: seq<string>): string {
    if lines == [] then "" else "+" + lines[0] + Added(lines[1..])
  }

  /** What the printed patch of a created file is. */
  function CreatedPatchText(path: string, content: string): string {
    Preamble(SlashPath(path)) + (HunkHeader(LineCount(content)) + Body(content))
  }

  function Body(content: string): string {
    Added(SplitInclusive(content)) + if content != "" && !EndsWithNewline(content) then "\n" + NOTE else ""
  }

  /** Printing appends one marked line after the other to a growing string. */
  method CreatedFilePatch(path: string, content: string) returns (output: string)
    ensures output == CreatedPatchText(path, content)
  {
    hide *;
    var slashed := SlashPath(path);
    var head := Preamble(slashed) + HunkHeader(LineCount(content));
    output := head;
    var lines := SplitInclusive(content);
    PrintStart(head);
    for i := 0 to |lines|
      invariant output == head + Added(lines[..i])
    {
      PrintStep(head, lines, i);
      output := output + "+";
      output := output + lines[i];
    }
    assert lines[..|lines|] == lines;
    if content != "" && !EndsWithNewline(content) {
      output := output + ("\n" + NOTE);
    }
    PrintEnd(path, content);
  }

  lemma PrintStart(head: string)
    ensures Added([]) == "" && head + "" == head
  {
  }

  lemma PrintStep(head: string, lines: seq<string>, i: nat)
    requires i < |lines|
    ensures head + Added(lines[..i]) + "+" + lines[i] == head + Added(lines[..i + 1])
  {
    hide Added;
    AddedAppend(lines[..i], lines[i]);
    assert lines[..i + 1] == lines[..i] + [lines[i]];
  }

  lemma PrintEnd(path: string, content: string)
    ensures var head := Preamble(SlashPath(path)) + HunkHeader(LineCount(content));
      CreatedPatchText(path, content) == head + Added(SplitInclusive(content))
        + if content != "" && !EndsWithNewline(content) then "\n" + NOTE else ""
  {
    hide Preamble, HunkHeader, SplitInclusive, Added, LineCount, SlashPath, EndsWithNewline;
  }

  lemma {:induction false} AddedAppend(lines: seq<string>, last: string)
    ensures Added(lines + [last]) == Added(lines) + ("+" + last)
  {
    if lines == [] {
      assert Added([last]) == "+" + last + Added([]);
    } else {
      AddedAppend(lines[1..], last);
      assert (lines + [last])[1..] == lines[1..] + [last];
    }
  }

  /** How many lines of a patch start a hunk. */
  function CountHunks(patch: string): nat {
    CountPrefixed(Lines(patch), HUNK)
  }

  function CountPrefixed(lines: seq<string>, prefix: string): nat {
    if lines == [] then 0 else (if StartsWith(lines[0], prefix) then 1 else 0) + CountPrefixed(lines[1..], prefix)
  }

  lemma {:induction false} CountConcat(a: seq<string>, b: seq<string>, prefix: string)
    ensures CountPrefixed(a + b, prefix) == CountPrefixed(a, prefix) + CountPrefixed(b, prefix)
  {
    if a == [] {
      assert a + b == b;
    } else {
      CountConcat(a[1..], b, prefix);
      assert (a + b)[1..] == a[1..] + b;
    }
  }

  lemma LinesConcat(a: string, b: string)
    requires a == "" || EndsWithNewline(a)
    ensures Lines(a + b) == Lines(a) + Lines(b)
  {
    SplitConcat(a, b);
  }

  lemma CountHunksConcat(a: string, b: string)
    requires a == "" || EndsWithNewline(a)
    ensures CountHunks(a + b) == CountHunks(a) + CountHunks(b)
  {
    LinesConcat(a, b);
    CountConcat(Lines(a), Lines(b), HUNK);
  }

  /** The patch starts with the header of a new file at its path and of the one hunk with all its lines. */
  lemma PatchStarts(path: string, content: string)
    ensures var p, n := SlashPath(path), Decimal(LineCount(content));
      CreatedPatchText(path, content)
      == "diff --git a/" + p + " b/" + p + "\n" + "new file mode 100644\n" + "--- /dev/null\n" + "+++ b/" + p + "\n"
         + "@@ -0,0 +1," + n + " @@\n" + Body(content)
  {
    hide SlashPath, Decimal, LineCount, Body;
    FourLines(SlashPath(path));
  }

  lemma FourLines(p: string)
    ensures Preamble(p)
      == "diff --git a/" + p + " b/" + p + "\n" + "new file mode 100644\n" + "--- /dev/null\n" + "+++ b/" + p + "\n"
  {
    var lines := PreambleLines(p);
    var four := [lines[3]];
    var three := [lines[2]] + four;
    var two := [lines[1]] + three;
    assert lines == [lines[0]] + two;
    assert two[1..] == three && three[1..] == four && four[1..] == [];
    assert Flatten(four) == lines[3] + "";
    assert Flatten(three) == lines[2] + lines[3];
    assert Flatten(two) == lines[1] + (lines[2] + lines[3]);
    assert lines[1..] == two;
  }

  lemma NoteIs()
    ensures NOTE == "\\ No newline at end of file" + "\n"
  {
  }

  /** The note about the missing final line feed ends the patch exactly when it is missing. */
  lemma BodyEnds(content: string)
    ensures content == "" || content[|content| - 1] == '\n' ==> Body(content) == Added(SplitInclusive(content))
    ensures content != "" && content[|content| - 1] != '\n' ==>
      Body(content) == Added(SplitInclusive(content)) + ("\n" + NOTE)
    ensures NOTE == "\\ No newline at end of file" + "\n"
  {
    NoteIs();
    hide SplitInclusive, Added, NOTE;
    assert Added(SplitInclusive(content)) + "" == Added(SplitInclusive(content));
  }

  // ---- The patch as a list of terminated lines ----

  ghost predicate AllTerminated(lines: seq<string>) {
    forall i :: 0 <= i < |lines| ==> IsLine(lines[i]) && EndsWithNewline(lines[i])
  }

  lemma {:induction false} SplitFlatten(lines: seq<string>)
    requires AllTerminated(lines)
    ensures SplitInclusive(Flatten(lines)) == lines
  {
    if lines != [] {
      SplitFlatten(lines[1..]);
      SplitFirstLine(lines[0], Flatten(lines[1..]));
    }
  }

  lemma {:induction false} FlattenConcat(a: seq<string>, b: seq<string>)
    ensures Flatten(a + b) == Flatten(a) + Flatten(b)
  {
    if a == [] {
      assert a + b == b;
    } else {
      FlattenConcat(a[1..], b);
      assert (a + b)[1..] == a[1..] + b;
    }
  }

  lemma NewlineFreeLine(text: string)
    requires '\n' !in text
    ensures IsLine(text + "\n") && EndsWithNewline(text + "\n")
  {
    assert (text + "\n")[..|text + "\n"| - 1] == text;
  }

  lemma PreambleIsLines(path: string)
    requires '\n' !in path
    ensures AllTerminated(PreambleLines(path))
    ensures CountPrefixed(PreambleLines(path), HUNK) == 0
  {
    var lines := PreambleLines(path);
    forall i | 0 <= i < |lines| ensures IsLine(lines[i]) && EndsWithNewline(lines[i]) && !StartsWith(lines[i], HUNK) {
      var text := if i == 0 then "diff --git a/" + path + " b/" + path else if i == 1 then "new file mode 100644"
        else if i == 2 then "--- /dev/null" else "+++ b/" + path;
      assert lines[i] == text + "\n" && text[0] != '@';
      NewlineFreeLine(text);
      NotHunk(lines[i]);
    }
    CountNone(lines, HUNK);
  }

  lemma NotHunk(line: string)
    requires line != "" && line[0] != '@'
    ensures !StartsWith(line, HUNK)
  {
    if |line| >= 3 {
      assert line[..3][0] != HUNK[0];
    }
  }

  lemma {:induction false} CountNone(lines: seq<string>, prefix: string)
    requires forall i :: 0 <= i < |lines| ==> !StartsWith(lines[i], prefix)
    ensures CountPrefixed(lines, prefix) == 0
  {
    if lines != [] {
      CountNone(lines[1..], prefix);
    }
  }

  lemma {:induction false} CountAll(lines: seq<string>, prefix: string)
    requires forall i :: 0 <= i < |lines| ==> StartsWith(lines[i], prefix)
    ensures CountPrefixed(lines, prefix) == |lines|
  {
    if lines != [] {
      CountAll(lines[1..], prefix);
    }
  }

  lemma HeaderIsLine(count: nat)
    ensures IsLine(HunkHeader(count)) && EndsWithNewline(HunkHeader(count)) && StartsWith(HunkHeader(count), HUNK)
  {
    var text := "@@ -0,0 +1," + Decimal(count) + " @@";
    assert '\n' !in text;
    NewlineFreeLine(text);
    assert HunkHeader(count) == text + "\n";
    assert HunkHeader(count)[..3] == HUNK;
  }

  /** A line with its terminator supplied if it lacks one. */
  function Terminated(line: string): string {
    if EndsWithNewline(line) then line else line + "\n"
  }

  function MarkedLines(lines: seq<string>): seq<string> {
    if lines == [] then [] else ["+" + Terminated(lines[0])] + MarkedLines(lines[1..])
  }

  function BodyLines(content: string): seq<string> {
    MarkedLines(SplitInclusive(content))
    + if content != "" && !EndsWithNewline(content) then [NOTE] else []
  }

  lemma {:induction false} MarkedLineAt(lines: seq<string>, i: nat)
    requires i < |lines|
    ensures |MarkedLines(lines)| == |lines| && MarkedLines(lines)[i] == "+" + Terminated(lines[i])
  {
    if i > 0 {
      MarkedLineAt(lines[1..], i - 1);
    } else if |lines| > 1 {
      MarkedLineAt(lines[1..], 0);
    }
  }

  lemma MarkedLineIsLine(line: string)
    requires IsLine(line)
    ensures var marked := "+" + Terminated(line);
      IsLine(marked) && EndsWithNewline(marked) && !StartsWith(marked, HUNK) && StartsWith(marked, "+")
  {
    var marked := "+" + Terminated(line);
    assert line == line[..|line| - 1] + [line[|line| - 1]];
    assert marked[..|marked| - 1] == "+" + if EndsWithNewline(line) then line[..|line| - 1] else line;
    NotHunk(marked);
  }

  lemma MarkedLinesAre(lines: seq<string>)
    requires forall i :: 0 <= i < |lines| ==> IsLine(lines[i])
    ensures AllTerminated(MarkedLines(lines)) && |MarkedLines(lines)| == |lines|
    ensures CountPrefixed(MarkedLines(lines), HUNK) == 0
    ensures CountPrefixed(MarkedLines(lines), "+") == |lines|
  {
    var marked := MarkedLines(lines);
    if lines != [] {
      MarkedLineAt(lines, 0);
    }
    hide MarkedLines, IsLine, EndsWithNewline, StartsWith, Terminated;
    forall i | 0 <= i < |marked|
      ensures IsLine(marked[i]) && EndsWithNewline(marked[i]) && !StartsWith(marked[i], HUNK)
        && StartsWith(marked[i], "+")
    {
      MarkedLineAt(lines, i);
      MarkedLineIsLine(lines[i]);
    }
    CountNone(marked, HUNK);
    CountAll(marked, "+");
  }

  /** With only the last line unterminated, terminating each is appending one line feed at the end. */
  lemma {:induction false} MarkedFlatten(lines: seq<string>)
    requires forall i :: 0 <= i < |lines| - 1 ==> EndsWithNewline(lines[i])
    ensures Flatten(MarkedLines(lines))
      == Added(lines) + if lines != [] && !EndsWithNewline(lines[|lines| - 1]) then "\n" else ""
  {
    if lines != [] {
      MarkedFlatten(lines[1..]);
      if |lines| == 1 {
        assert Added(lines[1..]) == "" && Flatten(MarkedLines(lines[1..])) == "";
      }
    }
  }

  lemma LastOfSplit(content: string)
    requires content != ""
    ensures EndsWithNewline(content) <==> EndsWithNewline(SplitInclusive(content)[|SplitInclusive(content)| - 1])
  {
    FlattenSplit(content);
    hide SplitInclusive, EndsWithNewline;
    FlattenLast(SplitInclusive(content));
  }

  lemma {:induction false} FlattenLast(lines: seq<string>)
    requires lines != [] && forall i :: 0 <= i < |lines| ==> IsLine(lines[i])
    ensures EndsWithNewline(Flatten(lines)) <==> EndsWithNewline(lines[|lines| - 1])
    ensures Flatten(lines) != ""
  {
    var rest := Flatten(lines[1..]);
    if |lines| > 1 {
      FlattenLast(lines[1..]);
      assert (lines[0] + rest)[|lines[0] + rest| - 1] == rest[|rest| - 1];
    } else {
      assert rest == "" && lines[0] + "" == lines[0];
    }
  }

  lemma BodyIsLines(content: string)
    ensures Flatten(BodyLines(content)) == Body(content) && AllTerminated(BodyLines(content))
    ensures CountPrefixed(BodyLines(content), HUNK) == 0
    ensures CountPrefixed(BodyLines(content), "+") == |SplitInclusive(content)|
  {
    var lines := SplitInclusive(content);
    var unterminated := content != "" && !EndsWithNewline(content);
    var note := if unterminated then [NOTE] else [];
    hide MarkedLines, IsLine, EndsWithNewline, StartsWith, SplitInclusive, Added;
    InnerLinesEnd(content);
    MarkedLinesAre(lines);
    MarkedFlatten(lines);
    if content != "" {
      LastOfSplit(content);
    }
    FlattenConcat(MarkedLines(lines), note);
    CountConcat(MarkedLines(lines), note, HUNK);
    CountConcat(MarkedLines(lines), note, "+");
    NoteIsLine();
    assert Flatten([]) == "" && note[|note|..] == [];
    assert Flatten(note) == if unterminated then NOTE else "";
    ConcatThree(Added(lines), "\n", NOTE);
  }

  lemma ConcatThree(a: string, b: string, c: string)
    ensures a + b + c == a + (b + c) && a + "" == a
  {
  }

  lemma NoteIsLine()
    ensures IsLine(NOTE) && EndsWithNewline(NOTE)
    ensures CountPrefixed([NOTE], HUNK) == 0 && CountPrefixed([NOTE], "+") == 0
  {
    var text := "\\ No newline at end of file";
    NewlineFreeLine(text);
    assert text + "\n" == NOTE;
    NotHunk(NOTE);
    assert NOTE[..1] != "+" by { assert NOTE[..1][0] != '+'; }
    CountNone([NOTE], HUNK);
    CountNone([NOTE], "+");
  }

  function PatchLines(path: string, content: string): seq<string> {
    PreambleLines(SlashPath(path)) + ([HunkHeader(LineCount(content))] + BodyLines(content))
  }

  lemma PatchIsLines(path: string, content: string)
    requires '\n' !in path
    ensures AllTerminated(PatchLines(path, content))
    ensures SplitInclusive(CreatedPatchText(path, content)) == PatchLines(path, content)
    ensures CountPrefixed(PatchLines(path, content), HUNK) == 1
  {
    var preamble, header, body := PreambleLines(SlashPath(path)), [HunkHeader(LineCount(content))], BodyLines(content);
    hide PreambleLines, BodyLines, Body, HunkHeader, IsLine, EndsWithNewline, SplitInclusive, StartsWith;
    PreambleIsLines(SlashPath(path));
    HeaderIsLine(LineCount(content));
    BodyIsLines(content);
    FlattenConcat(preamble, header + body);
    FlattenConcat(header, body);
    assert Flatten(header) == header[0] + Flatten([]);
    CountConcat(preamble, header + body, HUNK);
    CountConcat(header, body, HUNK);
    assert header[1..] == [];
    SplitFlatten(PatchLines(path, content));
  }

  // ---- Reading the patch back ----

  /** The file a created-file patch describes, read from its body lines. */
  function ReadBack(patch: string): string {
    var lines := SplitInclusive(patch);
    if |lines| < 5 then "" else Unmarked(lines[5..])
  }

  function Unmarked(lines: seq<string>): string {
    if lines == [] || lines[0] == "" || lines[0][0] != '+' then ""
    else if |lines| > 1 && |lines[0]| > 1 && StartsWith(lines[1], "\\") then lines[0][1..|lines[0]| - 1]
    else lines[0][1..] + Unmarked(lines[1..])
  }

  lemma {:induction false} UnmarkMarked(lines: seq<string>, note: seq<string>)
    requires forall i :: 0 <= i < |lines| ==> IsLine(lines[i])
    requires forall i :: 0 <= i < |lines| - 1 ==> EndsWithNewline(lines[i])
    requires note == if lines != [] && !EndsWithNewline(lines[|lines| - 1]) then [NOTE] else []
    ensures Unmarked(MarkedLines(lines) + note) == Flatten(lines)
  {
    if lines != [] {
      var marked, rest := "+" + Terminated(lines[0]), MarkedLines(lines[1..]) + note;
      assert MarkedLines(lines) + note == [marked] + rest;
      if |lines| == 1 {
        UnmarkLast(lines[0], note);
        assert MarkedLines(lines[1..]) == [];
        assert rest == note && Flatten(lines) == lines[0] + Flatten([]);
      } else {
        hide IsLine, Terminated, Unmarked;
        UnmarkMarked(lines[1..], note);
        MarkedLineAt(lines[1..], 0);
        UnmarkFirst(lines[0], rest);
      }
    }
  }

  lemma UnmarkFirst(line: string, rest: seq<string>)
    requires EndsWithNewline(line)
    requires rest != [] && rest[0] != "" && rest[0][0] == '+'
    ensures Unmarked(["+" + Terminated(line)] + rest) == line + Unmarked(rest)
  {
    var lines := ["+" + Terminated(line)] + rest;
    assert lines[1..] == rest && lines[0][1..] == line;
    assert !StartsWith(rest[0], "\\") by { assert rest[0][..1][0] == '+'; }
  }

  lemma UnmarkLast(line: string, note: seq<string>)
    requires IsLine(line)
    requires note == if EndsWithNewline(line) then [] else [NOTE]
    ensures Unmarked(["+" + Terminated(line)] + note) == line
  {
    var lines := ["+" + Terminated(line)] + note;
    assert lines[0][1..] == Terminated(line) && lines[1..] == note;
    if note == [] {
      assert Unmarked([]) == "";
    } else {
      assert NOTE[..1] == "\\";
      assert lines[0][1..|lines[0]| - 1] == line;
    }
  }

  /** Nothing of a created file is lost in its patch, the final line feed or its absence included. */
  lemma PatchRoundTrip(path: string, content: string)
    requires '\n' !in path
    ensures ReadBack(CreatedPatchText(path, content)) == content
  {
    PatchIsLines(path, content);
    var lines := SplitInclusive(content);
    hide SplitInclusive, MarkedLines, EndsWithNewline, IsLine, HunkHeader, LineCount, SlashPath, CreatedPatchText,
         Unmarked;
    assert PatchLines(path, content)[5..] == BodyLines(content);
    InnerLinesEnd(content);
    if content != "" {
      LastOfSplit(content);
    }
    UnmarkMarked(lines, if content != "" && !EndsWithNewline(content) then [NOTE] else []);
    FlattenSplit(content);
  }

  /** `line_count` is the number of lines, terminated or not. */
  lemma {:induction false} LineCountIsLines(content: string)
    ensures LineCount(content) == |SplitInclusive(content)|
    decreases |content|
  {
    var newline := Find(content, '\n', 0);
    if content != "" {
      assert content[0..] == content;
      if newline.None? {
        NoNewlines(content);
      } else {
        var cut := newline.value + 1;
        LineCountIsLines(content[cut..]);
        NewlinesSplit(content, cut);
        NewlinesStep(content, newline.value);
        assert content[..newline.value] == content[0..newline.value];
        NoNewlines(content[..newline.value]);
      }
    }
  }

  /** The printed patch has one hunk, whose header announces exactly the added lines that follow. */
  lemma OneHunkWithItsLines(path: string, content: string)
    requires '\n' !in path
    ensures CountHunks(CreatedPatchText(path, content)) == 1
    ensures var lines := SplitInclusive(CreatedPatchText(path, content));
      && |lines| >= 5
      && lines[4] == HunkHeader(LineCount(content))
      && CountPrefixed(lines[5..], "+") == LineCount(content)
  {
    hide SplitInclusive, BodyLines, HunkHeader, LineCount, SlashPath, CreatedPatchText, CountPrefixed, CountHunks;
    PatchIsLines(path, content);
    BodyIsLines(content);
    LineCountIsLines(content);
    assert PatchLines(path, content)[5..] == BodyLines(content);
    HunksOfLines(CreatedPatchText(path, content));
  }

  /** Dropping terminators does not change which lines start a hunk. */
  lemma HunksOfLines(patch: string)
    ensures CountHunks(patch) == CountPrefixed(SplitInclusive(patch), HUNK)
  {
    var split := SplitInclusive(patch);
    forall i | 0 <= i < |split| ensures StartsWith(split[i], HUNK) <==> StartsWith(Lines(patch)[i], HUNK) {
      StripKeepsPrefix(split[i]);
    }
    SameCount(split, Lines(patch));
  }

  lemma StripKeepsPrefix(line: string)
    ensures StartsWith(line, HUNK) <==> StartsWith(StripEol(line), HUNK)
  {
    var stripped := StripEol(line);
    if StartsWith(line, HUNK) {
      assert line[0] == '@' && line[1] == '@' && line[2] == ' ';
      assert |stripped| >= 3;
    }
    if |stripped| >= 3 {
      assert stripped[..3] == line[..3];
    }
  }

  lemma {:induction false} SameCount(a: seq<string>, b: seq<string>)
    requires |a| == |b| && forall i :: 0 <= i < |a| ==> (StartsWith(a[i], HUNK) <==> StartsWith(b[i], HUNK))
    ensures CountPrefixed(a, HUNK) == CountPrefixed(b, HUNK)
  {
    if a != [] {
      SameCount(a[1..], b[1..]);
    }
  }

  // ---- Statistics of the assembled patch ----

  /** Closing a text with a line feed neither makes nor breaks a hunk header. */
  lemma {:induction false} ClosingLineFeed(p: string)
    ensures CountHunks(p + "\n") == CountHunks(p)
    decreases |p|
  {
    var newline := Find(p, '\n', 0);
    if p == "" {
      SingleLine("\n");
      assert "" + "\n" == "\n";
    } else if newline.None? {
      assert p[0..] == p;
      assert (p + "\n")[..|p|] == p && forall c :: c in p[..|p| - 1] ==> c in p;
      SingleLine(p);
      SingleLine(p + "\n");
      assert StripEol(p + "\n") == if p[|p| - 1] == '\r' then p[..|p| - 1] else p;
      if p[|p| - 1] == '\r' {
        CarriageReturnKeepsPrefix(p);
      }
    } else {
      var cut := newline.value + 1;
      var first, rest := p[..cut], p[cut..];
      assert p == first + rest && p + "\n" == first + (rest + "\n");
      assert EndsWithNewline(first);
      CountHunksConcat(first, rest);
      CountHunksConcat(first, rest + "\n");
      ClosingLineFeed(rest);
    }
  }

  lemma CarriageReturnKeepsPrefix(p: string)
    requires p != "" && p[|p| - 1] == '\r'
    ensures StartsWith(p[..|p| - 1], HUNK) <==> StartsWith(p, HUNK)
  {
    if StartsWith(p, HUNK) {
      assert p[2] == HUNK[2] == ' ';
      assert p[..|p| - 1][..3] == p[..3];
    } else if |p| > 3 {
      assert p[..|p| - 1][..3] == p[..3];
    }
  }

  lemma SingleLine(line: string)
    requires IsLine(line)
    ensures CountHunks(line) == if StartsWith(StripEol(line), HUNK) then 1 else 0
  {
    assert SplitInclusive(line) == [line] by {
      if EndsWithNewline(line) {
        SplitFirstLine(line, "");
        assert line + "" == line;
      } else {
        var newline := Find(line, '\n', 0);
        assert newline.None? by {
          assert forall i :: 0 <= i < |line| - 1 ==> line[i] == line[..|line| - 1][i];
        }
      }
    }
    assert Lines(line) == [StripEol(line)];
    var stripped := StripEol(line);
    if StartsWith(stripped, HUNK) {
      CountAll([stripped], HUNK);
    } else {
      CountNone([stripped], HUNK);
    }
  }

  function SumOfHunks(patches: seq<string>): nat {
    if patches == [] then 0 else SumOfHunks(patches[..|patches| - 1]) + CountHunks(patches[|patches| - 1])
  }

  /** Each patch as it is, with a line feed behind it unless it ends in one. */
  function AllClosed(patches: seq<string>): (closed: seq<string>)
    ensures |closed| == |patches|
    ensures forall i :: 0 <= i < |patches| ==>
      closed[i] == patches[i] + if patches[i] != "" && patches[i][|patches[i]| - 1] == '\n' then "" else "\n"
  {
    seq(|patches|, i requires 0 <= i < |patches| => Terminated(patches[i]))
  }

  lemma Closes(before: string, patch: string)
    ensures before + Terminated(patch)
      == if EndsWithNewline(patch) then before + patch else (before + patch) + "\n"
    ensures EndsWithNewline(patch) ==> EndsWithNewline(before + patch)
    ensures EndsWithNewline((before + patch) + "\n")
  {
  }

  lemma OneMoreClosed(patches: seq<string>, i: nat)
    requires i < |patches|
    ensures Flatten(AllClosed(patches[..i + 1])) == Flatten(AllClosed(patches[..i])) + Terminated(patches[i])
    ensures SumOfHunks(patches[..i + 1]) == SumOfHunks(patches[..i]) + CountHunks(patches[i])
  {
    hide CountHunks, Terminated;
    assert patches[..i + 1][..i] == patches[..i];
    FlattenConcat(AllClosed(patches[..i]), [Terminated(patches[i])]);
    assert AllClosed(patches[..i + 1]) == AllClosed(patches[..i]) + [Terminated(patches[i])];
    assert Flatten([Terminated(patches[i])]) == Terminated(patches[i]);
  }

  lemma PatchGrows(before: string, patches: seq<string>, i: nat)
    requires i < |patches| && before == Flatten(AllClosed(patches[..i]))
    requires before == "" || EndsWithNewline(before)
    ensures SumOfHunks(patches[..i + 1]) == SumOfHunks(patches[..i]) + CountHunks(patches[i])
    ensures var joined := before + patches[i];
      var after := if EndsWithNewline(patches[i]) then joined else joined + "\n";
      && after == Flatten(AllClosed(patches[..i + 1]))
      && CountHunks(after) == CountHunks(before) + CountHunks(patches[i])
      && EndsWithNewline(after)
  {
    hide *;
    CountHunksConcat(before, patches[i]);
    OneMoreClosed(patches, i);
    Closes(before, patches[i]);
    ClosingLineFeed(before + patches[i]);
  }

  /** Per-file patches, each closed with a line feed, in one patch; the hunk statistic is its hunk count. */
  method AssemblePatch(patches: seq<string>) returns (patch: string, hunks: nat)
    ensures hunks == SumOfHunks(patches) == CountHunks(patch)
    ensures patch == "" || EndsWithNewline(patch)
    ensures patch == Flatten(AllClosed(patches))
  {
    patch, hunks := "", 0;
    for i := 0 to |patches|
      invariant patch == Flatten(AllClosed(patches[..i]))
      invariant hunks == SumOfHunks(patches[..i]) == CountHunks(patch)
      invariant patch == "" || EndsWithNewline(patch)
    {
      hide *;
      PatchGrows(patch, patches, i);
      hunks := hunks + CountHunks(patches[i]);
      patch := patch + patches[i];
      if !EndsWithNewline(patches[i]) {
        patch := patch + "\n";
      }
    }
    assert patches[..|patches|] == patches;
  }
}
