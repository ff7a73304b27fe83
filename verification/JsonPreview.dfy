/** The text the scanner records for a value. */
module JsonPreview {
  import opened Wrappers
  import opened Text
  import opened Documents
  import opened JsonTree
  import opened JsonScan
  import opened JsonWalk

  lemma {:induction false} FirstDelimiterAt(s: string, i: nat, k: nat)
    requires i <= k < |s| && s[k] in {',', '}', ']'}
    requires forall j :: i <= j < k ==> s[j] !in {',', '}', ']'}
    ensures FirstDelimiter(s, i) == k
    decreases k - i
  {
    if i < k {
      FirstDelimiterAt(s, i + 1, k);
    }
  }

  lemma FirstDelimiterStops(s: string, i: nat)
    requires i <= |s|
    ensures FirstDelimiter(s, i) < |s| ==> s[FirstDelimiter(s, i)] in {',', '}', ']'}
    ensures forall j :: i <= j < FirstDelimiter(s, i) ==> s[j] !in {',', '}', ']'}
    decreases |s| - i
  {
    if i < |s| && s[i] !in {',', '}', ']'} {
      FirstDelimiterStops(s, i + 1);
    }
  }

  /** The preview of an array or object ends inside its own text. */
  lemma PreviewInside(s: string, i: nat, piece: string)
    requires At(s, i, piece) && piece != "" && piece[|piece| - 1] in {']', '}'}
    ensures var k := FirstDelimiter(piece, 0);
      && i + k <= |s| && FirstDelimiter(s, i) == i + k && s[i..i + k] == piece[..k]
  {
    var k := FirstDelimiter(piece, 0);
    FirstDelimiterStops(piece, 0);
    AtChar(s, i, piece, k);
    forall j | i <= j < i + k ensures s[j] !in {',', '}', ']'} {
      AtChar(s, i, piece, j - i);
    }
    FirstDelimiterAt(s, i, i + k);
    assert s[i..i + k] == s[i..i + |piece|][..k];
  }

  lemma {:induction false} TrimSpaceEnd(text: string, space: string)
    requires text != "" && !IsWhitespace(text[|text| - 1]) && IsSpace(space)
    ensures TrimEnd(text + space) == text
    decreases |space|
  {
    if space == "" {
      assert text + space == text;
    } else {
      var cut := space[..|space| - 1];
      assert (text + space)[|text + space| - 1] == space[|space| - 1] && IsSpaceChar(space[|space| - 1]);
      assert (text + space)[..|text + space| - 1] == text + cut;
      TrimSpaceEnd(text, cut);
    }
  }

  lemma TrimSpaced(text: string, space: string)
    requires ScalarOk(text) && IsSpace(space)
    ensures Trim(text + space) == text
  {
    TrimSpaceEnd(text, space);
    assert (text + space)[0] == text[0];
  }

  lemma NoDelimiterInside(s: string, i: nat, text: string, space: string)
    requires At(s, i, text) && ScalarOk(text) && Closes(s, i + |text|, space)
    ensures i + |text| + |space| < |s| && FirstDelimiter(s, i) == i + |text| + |space|
  {
    var k := i + |text| + |space|;
    forall j | i <= j < k ensures s[j] !in {',', '}', ']'} {
      if j < i + |text| {
        AtChar(s, i, text, j - i);
      } else {
        AtChar(s, i + |text|, space, j - i - |text|);
        assert IsSpaceChar(space[j - i - |text|]);
      }
    }
    FirstDelimiterAt(s, i, k);
  }

  lemma TwoPieces(s: string, i: nat, a: string, b: string)
    requires At(s, i, a) && At(s, i + |a|, b)
    ensures i + |a| + |b| <= |s| && s[i..i + |a| + |b|] == a + b
  {
    assert s[i..i + |a| + |b|] == s[i..i + |a|] + s[i + |a|..i + |a| + |b|];
  }

  lemma FirstOfScalar(s: string, i: nat, text: string)
    requires At(s, i, text) && ScalarOk(text)
    ensures i < |s| && !IsAsciiSpace(s[i]) && s[i] !in {'{', '"'}
  {
    AtChar(s, i, text, 0);
  }

  lemma PreviewUnquoted(s: string, i: nat, decode: Decoder)
    requires i < |s| && s[i] != '"'
    ensures ScalarPreview(s, i, decode) == Ok(Trim(s[i..FirstDelimiter(s, i)]))
  {
  }

  lemma ClosesPieces(s: string, j: nat, space: string)
    requires Closes(s, j, space)
    ensures At(s, j, space) && IsSpace(space)
  {
  }

  lemma PreviewScalar(s: string, i: nat, text: string, space: string, decode: Decoder)
    requires At(s, i, text) && ScalarOk(text) && Closes(s, i + |text|, space)
    ensures i < |s| && ScalarPreview(s, i, decode) == Ok(text) && !IsAsciiSpace(s[i]) && s[i] != '{'
  {
    hide *;
    NoDelimiterInside(s, i, text, space);
    FirstOfScalar(s, i, text);
    ClosesPieces(s, i + |text|, space);
    TwoPieces(s, i, text, space);
    TrimSpaced(text, space);
    PreviewUnquoted(s, i, decode);
  }

  lemma Preview(s: string, i: nat, v: Value, space: string, decode: Decoder)
    requires ValueOk(v, decode) && At(s, i, Print(v)) && Closes(s, i + |Print(v)|, space)
    ensures i < |s| && ScalarPreview(s, i, decode) == Ok(ValueText(v, decode))
    ensures !IsAsciiSpace(s[i]) && (s[i] == '{' <==> v.Object?)
  {
    hide *;
    ValueFacts(v, decode);
    AtBound(s, i, Print(v));
    if v.Scalar? {
      PreviewScalar(s, i, v.text, space, decode);
    } else if v.Quoted? {
      StringAtQuote(s, i, v.raw, decode);
      PreviewQuoted(s, i, v.raw, decode);
    } else {
      PreviewInside(s, i, Print(v));
      AtChar(s, i, Print(v), 0);
      PreviewBracketed(s, i, Print(v), decode);
    }
  }

  lemma PreviewQuoted(s: string, i: nat, raw: string, decode: Decoder)
    requires i + |raw| + 2 <= |s| && s[i] == '"' && StringAt(s, i, decode) == Ok((Name(raw, decode), i + |raw| + 2))
    ensures ScalarPreview(s, i, decode) == Ok(Name(raw, decode)) && !IsAsciiSpace(s[i])
  {
    hide StringAt, Name;
  }

  lemma PreviewBracketed(s: string, i: nat, piece: string, decode: Decoder)
    requires i < |s| && s[i] in {'[', '{'}
    requires var k := FirstDelimiter(piece, 0);
      i + k <= |s| && FirstDelimiter(s, i) == i + k && s[i..i + k] == piece[..k]
    ensures ScalarPreview(s, i, decode) == Ok(Trim(piece[..FirstDelimiter(piece, 0)])) && !IsAsciiSpace(s[i])
  {
    hide Trim, FirstDelimiter, StringAt;
  }

  lemma ValueFacts(v: Value, decode: Decoder)
    requires ValueOk(v, decode)
    ensures v.Scalar? ==> ScalarOk(v.text) && Print(v) == v.text && ValueText(v, decode) == v.text
    ensures v.Quoted?
      ==> StringOk(v.raw, decode) && Print(v) == Quote(v.raw) && ValueText(v, decode) == Name(v.raw, decode)
    ensures v.Array? || v.Object? ==>
      && Print(v) != "" && Print(v)[|Print(v)| - 1] in {']', '}'} && Print(v)[0] == (if v.Array? then '[' else '{')
      && ValueText(v, decode) == Trim(Print(v)[..FirstDelimiter(Print(v), 0)])
    ensures v.Object? ==> IsSpace(v.open) && MembersOk(v.members, decode)
    ensures v.Object? ==> Print(v) == "{" + (v.open + (PrintMembers(v.members) + "}"))
    ensures v.Array? ==> IsSpace(v.open) && ItemsOk(v.items, decode)
    ensures v.Array? ==> Print(v) == "[" + (v.open + (PrintItems(v.items) + "]"))
  {
    hide ScalarOk, StringOk, IsSpace, Trim, FirstDelimiter, Name;
  }
}
