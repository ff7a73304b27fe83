/** The string operations of Rust's standard library that several parts of the program share. */
module Text {
  import opened Wrappers

  /** How many line feeds a text contains. */
  function Newlines(s: string): (n: nat) {
    if s == [] then 0 else (if s[0] == '\n' then 1 else 0) + Newlines(s[1..])
  }

  lemma {:induction false} NewlinesConcat(s: string, t: string)
    ensures Newlines(s + t) == Newlines(s) + Newlines(t)
  {
    if s == [] {
      assert s + t == t;
    } else {
      NewlinesConcat(s[1..], t);
      assert (s + t)[1..] == s[1..] + t;
    }
  }

  lemma NewlinesStep(s: string, k: nat)
    requires k < |s|
    ensures Newlines(s[..k + 1]) == Newlines(s[..k]) + if s[k] == '\n' then 1 else 0
  {
    assert s[..k + 1] == s[..k] + [s[k]];
    NewlinesConcat(s[..k], [s[k]]);
  }

  lemma NewlinesSplit(s: string, k: nat)
    requires k <= |s|
    ensures Newlines(s) == Newlines(s[..k]) + Newlines(s[k..])
  {
    NewlinesConcat(s[..k], s[k..]);
    assert s[..k] + s[k..] == s;
  }

  lemma NewlinesMonotone(s: string, j: nat, k: nat)
    requires j <= k <= |s|
    ensures Newlines(s[..j]) <= Newlines(s[..k])
    ensures Newlines(s[..k]) == Newlines(s[..j]) + Newlines(s[j..k])
  {
    NewlinesSplit(s[..k], j);
    assert s[..k][..j] == s[..j] && s[..k][j..] == s[j..k];
  }

  lemma {:induction false} NoNewlines(s: string)
    requires '\n' !in s
    ensures Newlines(s) == 0
  {
    if s != [] {
      assert forall c :: c in s[1..] ==> c in s;
      NoNewlines(s[1..]);
    }
  }

  /** `str::find` of one character from an index on. */
  function Find(s: string, c: char, from: nat): (r: Option<nat>)
    requires from <= |s|
    ensures r.Some? ==> from <= r.value < |s| && s[r.value] == c && c !in s[from..r.value]
    ensures r.None? ==> c !in s[from..]
    decreases |s| - from
  {
    if from == |s| then None
    else if s[from] == c then Some(from)
    else
      var r := Find(s, c, from + 1);
      assert s[from..] == [s[from]] + s[from + 1..];
      assert r.Some? ==> s[from..r.value] == [s[from]] + s[from + 1..r.value];
      r
  }

  lemma {:induction false} FindFirst(s: string, c: char, from: nat, k: nat)
    requires from <= k < |s| && s[k] == c
    requires forall i :: from <= i < k ==> s[i] != c
    ensures Find(s, c, from) == Some(k)
    decreases k - from
  {
    if from < k {
      FindFirst(s, c, from + 1, k);
    }
  }

  /** Components joined by a dot, as `join(".")`. */
  function Join(parts: seq<string>): string {
    if parts == [] then ""
    else if |parts| == 1 then parts[0]
    else parts[0] + "." + Join(parts[1..])
  }

  ghost predicate DotFree(parts: seq<string>) {
    forall p :: p in parts ==> '.' !in p
  }

  /** `str::split('.')`. */
  function SplitDots(s: string): (parts: seq<string>)
    ensures parts != [] && DotFree(parts)
    decreases |s|
  {
    var dot := Find(s, '.', 0);
    if dot.None? then assert s[0..] == s; [s]
    else
      assert s[..dot.value] == s[0..dot.value];
      [s[..dot.value]] + SplitDots(s[dot.value + 1..])
  }

  /** A component more is a dot and the component. */
  lemma {:induction false} JoinSnoc(parts: seq<string>, part: string)
    ensures Join(parts + [part]) == if parts == [] then part else Join(parts) + "." + part
  {
    if |parts| == 1 {
      assert parts + [part] == [parts[0], part];
      assert [parts[0], part][1..] == [part];
    } else if |parts| > 1 {
      JoinSnoc(parts[1..], part);
      assert (parts + [part])[1..] == parts[1..] + [part];
    }
  }

  /** Splitting a dotted path at its dots gives its components back. */
  lemma {:induction false} SplitOfJoin(parts: seq<string>)
    requires parts != [] && DotFree(parts)
    ensures SplitDots(Join(parts)) == parts
  {
    var s, first := Join(parts), parts[0];
    if |parts| == 1 {
      assert parts == [first] && first in parts;
    } else {
      assert first in parts;
      forall i | 0 <= i < |first| ensures s[i] != '.' {
        assert s[i] == first[i] && first[i] in first;
      }
      FindFirst(s, '.', 0, |first|);
      assert s[..|first|] == first && s[|first| + 1..] == Join(parts[1..]);
      SplitOfJoin(parts[1..]);
      assert parts == [first] + parts[1..];
    }
  }

  lemma DotBeforeEnd(a: string, x: string, b: string, y: string)
    requires |a| < |b| && '.' !in b
    requires x == "" || x[0] == '.'
    ensures a + x != b + y
  {
    if x != "" {
      assert (a + x)[|a|] == '.' && (b + y)[|a|] == b[|a|];
    } else {
      assert |a + x| < |b + y|;
    }
  }

  /** Where the first dot stands decides the first component. */
  lemma FirstComponent(a: string, x: string, b: string, y: string)
    requires '.' !in a && '.' !in b
    requires a + x == b + y
    requires x == "" || x[0] == '.'
    requires y == "" || y[0] == '.'
    ensures a == b && x == y
  {
    if |a| < |b| {
      DotBeforeEnd(a, x, b, y);
    } else if |b| < |a| {
      DotBeforeEnd(b, y, a, x);
    }
    assert a == (a + x)[..|a|] == b;
    assert x == (a + x)[|a|..] == y;
  }

  /** Dotted paths of dot-free components are unambiguous. */
  lemma {:induction false} JoinInjective(p: seq<string>, q: seq<string>)
    requires DotFree(p) && DotFree(q) && p != [] && q != []
    requires Join(p) == Join(q)
    ensures p == q
  {
    var x := if |p| == 1 then "" else "." + Join(p[1..]);
    var y := if |q| == 1 then "" else "." + Join(q[1..]);
    assert Join(p) == p[0] + x && Join(q) == q[0] + y;
    FirstComponent(p[0], x, q[0], y);
    if |p| > 1 {
      assert Join(p[1..]) == x[1..] == y[1..] == Join(q[1..]);
      JoinInjective(p[1..], q[1..]);
      assert p == [p[0]] + p[1..] && q == [q[0]] + q[1..];
    }
  }

  predicate AllDigits(s: string) {
    forall i :: 0 <= i < |s| ==> '0' <= s[i] <= '9'
  }

  /** The decimal digits of a number. */
  function Decimal(n: nat): (s: string)
    ensures s != "" && AllDigits(s)
  {
    if n < 10 then [Digit(n)] else Decimal(n / 10) + [Digit(n % 10)]
  }

  function Digit(d: nat): (c: char)
    requires d < 10
    ensures '0' <= c <= '9' && c as int == '0' as int + d
  {
    ('0' as int + d) as char
  }

  /** The number a digit string denotes, as `str::parse` reads it. */
  function Number(s: string): nat
    requires AllDigits(s)
  {
    if s == "" then 0
    else
      10 * Number(s[..|s| - 1]) + (s[|s| - 1] as int - '0' as int)
  }

  lemma {:induction false} NumberOfDecimal(n: nat)
    ensures Number(Decimal(n)) == n
  {
    if n >= 10 {
      NumberOfDecimal(n / 10);
      assert Decimal(n)[..|Decimal(n)| - 1] == Decimal(n / 10);
    } else {
      assert Decimal(n)[..0] == "";
    }
  }

  lemma DecimalInjective(m: nat, n: nat)
    requires Decimal(m) == Decimal(n)
    ensures m == n
  {
    NumberOfDecimal(m);
    NumberOfDecimal(n);
  }

  /** A longer run of digits behind the last dash reaches over the other's dash. */
  lemma DashInDigits(a: string, d: string, b: string, e: string)
    requires AllDigits(e) && |d| < |e| && |a| + |d| == |b| + |e|
    ensures a + "-" + d != b + "-" + e
  {
    assert (a + "-" + d)[|a|] == '-';
    assert (b + "-" + e)[|a|] == e[|a| - |b| - 1];
  }

  lemma LastDash(a: string, d: string, b: string, e: string)
    requires AllDigits(d) && AllDigits(e) && d != e
    ensures a + "-" + d != b + "-" + e
  {
    var s, t := a + "-" + d, b + "-" + e;
    if |s| == |t| {
      if |d| < |e| {
        DashInDigits(a, d, b, e);
      } else if |e| < |d| {
        DashInDigits(b, e, a, d);
      } else {
        assert s[|a| + 1..] == d && t[|a| + 1..] == e;
      }
    }
  }

  function Flatten(parts: seq<string>): string {
    if parts == [] then "" else parts[0] + Flatten(parts[1..])
  }

  predicate EndsWithNewline(s: string) {
    s != "" && s[|s| - 1] == '\n'
  }

  /** One line with its terminator: non-empty, and with no line feed before its last character. */
  predicate IsLine(line: string) {
    line != "" && '\n' !in line[..|line| - 1]
  }

  /** `str::split_inclusive('\n')`. */
  function SplitInclusive(s: string): (lines: seq<string>)
    ensures forall i :: 0 <= i < |lines| ==> IsLine(lines[i])
    ensures lines == [] <==> s == ""
    decreases |s|
  {
    if s == "" then []
    else
      var newline := Find(s, '\n', 0);
      if newline.None? then
        assert s[0..] == s && forall c :: c in s[..|s| - 1] ==> c in s;
        [s]
      else
        assert s[..newline.value + 1][..newline.value] == s[0..newline.value];
        [s[..newline.value + 1]] + SplitInclusive(s[newline.value + 1..])
  }

  /** Only the last line can lack its line feed. */
  lemma {:induction false} InnerLinesEnd(s: string)
    ensures forall i :: 0 <= i < |SplitInclusive(s)| - 1 ==> EndsWithNewline(SplitInclusive(s)[i])
    decreases |s|
  {
    var newline := Find(s, '\n', 0);
    if s != "" && newline.Some? {
      InnerLinesEnd(s[newline.value + 1..]);
    }
  }

  lemma {:induction false} FlattenSplit(s: string)
    ensures Flatten(SplitInclusive(s)) == s
    decreases |s|
  {
    var newline := Find(s, '\n', 0);
    if s != "" && newline.Some? {
      var cut := newline.value + 1;
      FlattenSplit(s[cut..]);
      assert s == s[..cut] + s[cut..];
    }
  }

  lemma SplitFirstLine(line: string, rest: string)
    requires IsLine(line) && EndsWithNewline(line)
    ensures SplitInclusive(line + rest) == [line] + SplitInclusive(rest)
  {
    var s := line + rest;
    var last := |line| - 1;
    assert forall i :: 0 <= i < last ==> s[i] == line[..last][i];
    FindFirst(s, '\n', 0, last);
    assert s[..last + 1] == line && s[last + 1..] == rest;
  }

  /** A text that ends a line can be split apart from what follows it. */
  lemma {:induction false} SplitConcat(a: string, b: string)
    requires a == "" || EndsWithNewline(a)
    ensures SplitInclusive(a + b) == SplitInclusive(a) + SplitInclusive(b)
    decreases |a|
  {
    if a == "" {
      assert a + b == b;
    } else {
      var first, rest := FirstLine(a);
      SplitConcat(rest, b);
      SplitConcatStep(first, rest, b);
    }
  }

  lemma SplitConcatStep(first: string, rest: string, b: string)
    requires IsLine(first) && EndsWithNewline(first)
    requires SplitInclusive(rest + b) == SplitInclusive(rest) + SplitInclusive(b)
    ensures SplitInclusive((first + rest) + b) == SplitInclusive(first + rest) + SplitInclusive(b)
  {
    hide *;
    SplitFirstLine(first, rest);
    SplitFirstLine(first, rest + b);
    assert (first + rest) + b == first + (rest + b);
  }

  lemma FirstLine(a: string) returns (first: string, rest: string)
    requires EndsWithNewline(a)
    ensures a == first + rest && |rest| < |a| && IsLine(first) && EndsWithNewline(first)
    ensures rest == "" || EndsWithNewline(rest)
  {
    var newline := Find(a, '\n', 0);
    assert a[0..] == a;
    var cut := newline.value + 1;
    first, rest := a[..cut], a[cut..];
    assert first[..|first| - 1] == a[0..newline.value];
  }

  /** Every line of a text that ends a line is itself terminated. */
  lemma {:induction false} LastLineEnds(s: string)
    requires EndsWithNewline(s)
    ensures forall i :: 0 <= i < |SplitInclusive(s)| ==> EndsWithNewline(SplitInclusive(s)[i])
    decreases |s|
  {
    var newline := Find(s, '\n', 0);
    assert s[0..] == s;
    if newline.value + 1 < |s| {
      LastLineEnds(s[newline.value + 1..]);
    }
  }

  /** A line without its terminator, as `str::lines` yields it. */
  function StripEol(line: string): string {
    if !EndsWithNewline(line) then line
    else if |line| >= 2 && line[|line| - 2] == '\r' then line[..|line| - 2]
    else line[..|line| - 1]
  }

  /** `str::lines`. */
  function Lines(s: string): (lines: seq<string>)
    ensures |lines| == |SplitInclusive(s)|
  {
    var split := SplitInclusive(s);
    seq(|split|, i requires 0 <= i < |split| => StripEol(split[i]))
  }

  lemma StripsEol(raw: string)
    requires IsLine(raw)
    ensures var line := StripEol(raw);
      && '\n' !in line
      && (if !EndsWithNewline(raw) then raw == line
          else raw == line + "\r\n" || (raw == line + "\n" && (line == "" || line[|line| - 1] != '\r')))
  {
    var n := |raw|;
    assert raw == raw[..n - 1] + [raw[n - 1]];
    if EndsWithNewline(raw) && n >= 2 && raw[n - 2] == '\r' {
      assert raw[..n - 1] == raw[..n - 2] + "\r";
      assert raw == raw[..n - 2] + "\r\n";
    }
  }

  /** A line is what stands before its line feed, or before a carriage return in front of that. */
  lemma LineEnds(s: string, i: nat)
    requires i < |Lines(s)|
    ensures var line, raw := Lines(s)[i], SplitInclusive(s)[i];
      && '\n' !in line
      && (raw == line + "\r\n" || (raw == line + "\n" && (line == "" || line[|line| - 1] != '\r'))
          || (raw == line && i == |Lines(s)| - 1))
  {
    hide StripEol, SplitInclusive;
    InnerLinesEnd(s);
    StripsEol(SplitInclusive(s)[i]);
  }

  lemma OneLine(content: string)
    requires content != "" && '\n' !in content
    ensures Lines(content) == [content]
  {
    assert Find(content, '\n', 0).None?;
    assert SplitInclusive(content) == [content];
  }

  predicate StartsWith(s: string, prefix: string) {
    |prefix| <= |s| && s[..|prefix|] == prefix
  }

  /** Unicode's White_Space property, which `char::is_whitespace` and `str::trim` use. */
  predicate IsWhitespace(c: char) {
    var v := c as int;
    || 0x09 <= v <= 0x0D || v in {0x20, 0x85, 0xA0, 0x1680, 0x2028, 0x2029, 0x202F, 0x205F, 0x3000}
    || 0x2000 <= v <= 0x200A
  }

  function TrimStart(s: string): (r: string)
    ensures |r| <= |s| && r == s[|s| - |r|..]
    ensures r != "" ==> !IsWhitespace(r[0])
    ensures forall i :: 0 <= i < |s| - |r| ==> IsWhitespace(s[i])
  {
    if s == "" || !IsWhitespace(s[0]) then s else TrimStart(s[1..])
  }

  function TrimEnd(s: string): (r: string)
    ensures |r| <= |s| && r == s[..|r|]
    ensures r != "" ==> !IsWhitespace(r[|r| - 1])
    ensures forall i :: |r| <= i < |s| ==> IsWhitespace(s[i])
  {
    if s == "" || !IsWhitespace(s[|s| - 1]) then s else TrimEnd(s[..|s| - 1])
  }

  function Trim(s: string): string {
    TrimEnd(TrimStart(s))
  }

  /** Exactly what stands in front of `i` and from `j` on can be taken off the ends. */
  ghost predicate StripsTo(s: string, i: nat, j: nat, off: set<char>) {
    && i <= j <= |s|
    && (forall k :: 0 <= k < i || j <= k < |s| ==> s[k] in off)
    && (i < j ==> s[i] !in off && s[j - 1] !in off)
  }

  /** What is left of a text when all such characters are taken off its ends. */
  ghost predicate Stripped(s: string, r: string, off: set<char>) {
    exists i: nat, j: nat :: StripsTo(s, i, j, off) && r == s[i..j]
  }

  lemma StrippedOnce(s: string, r: string, r': string, off: set<char>)
    requires Stripped(s, r, off) && Stripped(s, r', off)
    ensures r == r'
  {
    var i: nat, j: nat :| StripsTo(s, i, j, off) && r == s[i..j];
    var i': nat, j': nat :| StripsTo(s, i', j', off) && r' == s[i'..j'];
  }

  lemma StrippedFirst(s: string, r: string, off: set<char>)
    requires s != "" && s[0] in off && Stripped(s[1..], r, off)
    ensures Stripped(s, r, off)
  {
    var i: nat, j: nat :| StripsTo(s[1..], i, j, off) && r == s[1..][i..j];
    assert s[i + 1..j + 1] == r;
    forall k | 0 <= k < i + 1 || j + 1 <= k < |s| ensures s[k] in off {
      assert k > 0 ==> s[k] == s[1..][k - 1];
    }
    assert StripsTo(s, i + 1, j + 1, off);
  }

  lemma StrippedLast(s: string, r: string, off: set<char>)
    requires s != "" && s[|s| - 1] in off && Stripped(s[..|s| - 1], r, off)
    ensures Stripped(s, r, off)
  {
    var t := s[..|s| - 1];
    var i: nat, j: nat :| StripsTo(t, i, j, off) && r == t[i..j];
    assert s[i..j] == r;
    forall k | 0 <= k < i || j <= k < |s| ensures s[k] in off {
      assert k < |t| ==> s[k] == t[k];
    }
    assert StripsTo(s, i, j, off);
  }

  lemma StrippedNothing(s: string, off: set<char>)
    requires s != "" ==> s[0] !in off && s[|s| - 1] !in off
    ensures Stripped(s, s, off)
  {
    assert StripsTo(s, 0, |s|, off) && s[0..|s|] == s;
  }

  lemma TrimAgain(s: string)
    ensures Trim(Trim(s)) == Trim(s)
  {
    hide *;
    TrimEnds(s);
    VisibleEnds(Trim(s));
  }

  lemma VisibleEnds(s: string)
    requires s != "" ==> !IsWhitespace(s[0]) && !IsWhitespace(s[|s| - 1])
    ensures Trim(s) == s
  {
  }

  lemma TrimEnds(s: string)
    ensures Trim(s) != "" ==> !IsWhitespace(Trim(s)[0]) && !IsWhitespace(Trim(s)[|Trim(s)| - 1])
  {
    var t := TrimStart(s);
    assert TrimEnd(t) == t[..|TrimEnd(t)|];
  }

  /** Without white space inside there is nothing to trim. */
  lemma TrimVisible(s: string)
    requires forall i :: 0 <= i < |s| ==> !IsWhitespace(s[i])
    ensures Trim(s) == s
  {
  }

  lemma AsciiVisible(c: char)
    requires '!' <= c <= '~'
    ensures !IsWhitespace(c)
  {
  }

  lemma TrimAscii(s: string)
    requires forall i :: 0 <= i < |s| ==> '!' <= s[i] <= '~'
    ensures Trim(s) == s
  {
    hide Trim, IsWhitespace;
    forall i | 0 <= i < |s| ensures !IsWhitespace(s[i]) {
      AsciiVisible(s[i]);
    }
    TrimVisible(s);
  }
}
