/**
 UTF-8 as section 3 of RFC 3629 defines it, over Dafny's `char` (a Unicode scalar value), with the
 character-boundary test that Rust's `str` slicing relies on.
 */
module Utf8 {

  newtype byte = b: int | 0 <= b < 256

  type Bytes = seq<byte>

  /** The number of bytes of one character. */
  function CharLen(c: char): (n: nat)
    ensures 1 <= n <= 4
  {
    var v := c as int;
    if v < 0x80 then 1 else if v < 0x800 then 2 else if v < 0x1_0000 then 3 else 4
  }

  function EncodeChar(c: char): (b: Bytes)
    ensures |b| == CharLen(c)
    ensures !IsContinuation(b[0]) && forall i :: 0 < i < |b| ==> IsContinuation(b[i])
  {
    var v := c as int;
    if v < 0x80 then [v as byte]
    else if v < 0x800 then [(0xC0 + v / 64) as byte, Tail(v)]
    else if v < 0x1_0000 then [(0xE0 + v / 4096) as byte, Tail(v / 64), Tail(v)]
    else [(0xF0 + v / 262144) as byte, Tail(v / 4096), Tail(v / 64), Tail(v)]
  }

  function Tail(v: nat): (b: byte)
    ensures IsContinuation(b) && b as int == 0x80 + v % 64
  {
    (0x80 + v % 64) as byte
  }

  predicate IsContinuation(b: byte) {
    0x80 <= b < 0xC0
  }

  function Encode(s: string): (b: Bytes)
    ensures s == [] <==> b == []
  {
    if s == [] then [] else EncodeChar(s[0]) + Encode(s[1..])
  }

  function ByteLen(s: string): (n: nat)
    ensures n == |Encode(s)|
    ensures |s| <= n
  {
    if s == [] then 0 else CharLen(s[0]) + ByteLen(s[1..])
  }

  /** Rust's `str::is_char_boundary`. */
  predicate IsCharBoundary(b: Bytes, i: nat) {
    i == 0 || i == |b| || (i < |b| && !IsContinuation(b[i]))
  }

  lemma EncodeCons(s: string)
    requires s != []
    ensures Encode(s) == EncodeChar(s[0]) + Encode(s[1..])
  {
  }

  lemma ConcatAssociative(a: Bytes, b: Bytes, c: Bytes)
    ensures (a + b) + c == a + (b + c)
  {
  }

  lemma {:induction false} EncodeConcat(s: string, t: string)
    ensures Encode(s + t) == Encode(s) + Encode(t)
    ensures ByteLen(s + t) == ByteLen(s) + ByteLen(t)
  {
    if s == [] {
      assert s + t == t;
    } else {
      hide *;
      EncodeConcat(s[1..], t);
      assert (s + t)[0] == s[0] && (s + t)[1..] == s[1..] + t;
      EncodeCons(s);
      EncodeCons(s + t);
      ConcatAssociative(EncodeChar(s[0]), Encode(s[1..]), Encode(t));
    }
  }

  /** The encoding of a string is the encoding of a prefix followed by that of the rest. */
  lemma EncodeSplit(s: string, k: nat)
    requires k <= |s|
    ensures Encode(s) == Encode(s[..k]) + Encode(s[k..])
    ensures ByteLen(s) == ByteLen(s[..k]) + ByteLen(s[k..])
  {
    hide *;
    EncodeConcat(s[..k], s[k..]);
    assert s[..k] + s[k..] == s;
  }

  /** One more character adds its length. */
  lemma ByteLenStep(s: string, k: nat)
    requires k < |s|
    ensures ByteLen(s[..k + 1]) == ByteLen(s[..k]) + CharLen(s[k])
    ensures ByteLen(s[k..]) == CharLen(s[k]) + ByteLen(s[k + 1..])
  {
    assert s[..k + 1] == s[..k] + [s[k]];
    EncodeConcat(s[..k], [s[k]]);
    assert s[k..][1..] == s[k + 1..];
  }

  /** Byte offsets of characters grow strictly. */
  lemma {:induction false} ByteLenMonotone(s: string, j: nat, k: nat)
    requires j <= k <= |s|
    ensures ByteLen(s[..j]) <= ByteLen(s[..k])
    ensures j < k ==> ByteLen(s[..j]) < ByteLen(s[..k])
  {
    hide *;
    if j < k {
      ByteLenMonotone(s, j, k - 1);
      ByteLenStep(s, k - 1);
    }
  }

  /** The byte offset of each character, and of the end, is a boundary. */
  lemma PrefixIsBoundary(s: string, k: nat)
    requires k <= |s|
    ensures IsCharBoundary(Encode(s), ByteLen(s[..k]))
  {
    EncodeSplit(s, k);
    if k < |s| {
      assert Encode(s)[ByteLen(s[..k])] == Encode(s[k..])[0] == EncodeChar(s[k])[0];
    } else {
      assert s[..k] == s;
    }
  }

  lemma InsideFirstChar(s: string, i: nat)
    requires s != [] && 0 < i < CharLen(s[0])
    ensures i < |Encode(s)| && !IsCharBoundary(Encode(s), i)
  {
    assert Encode(s)[i] == EncodeChar(s[0])[i];
  }

  /** And there are no others: a boundary is the offset of some character. */
  lemma {:induction false} BoundaryIsPrefix(s: string, i: nat) returns (k: nat)
    requires i <= ByteLen(s) && IsCharBoundary(Encode(s), i)
    ensures k <= |s| && ByteLen(s[..k]) == i
  {
    if i == 0 {
      k := 0;
    } else {
      var head := CharLen(s[0]);
      if i < head {
        InsideFirstChar(s, i);
        assert false;
      }
      assert i < |Encode(s)| ==> Encode(s)[i] == Encode(s[1..])[i - head];
      k := BoundaryIsPrefix(s[1..], i - head);
      assert s[..k + 1][1..] == s[1..][..k];
      k := k + 1;
    }
  }

  /** The scalar value a well-formed sequence starts with, read off its lead byte. */
  function FirstScalar(b: Bytes): int
    requires |b| > 0
    requires b[0] >= 0x80 ==> |b| > 1
    requires b[0] >= 0xE0 ==> |b| > 2
    requires b[0] >= 0xF0 ==> |b| > 3
  {
    if b[0] < 0x80 then b[0] as int
    else if b[0] < 0xE0 then (b[0] as int - 0xC0) * 64 + Low(b[1])
    else if b[0] < 0xF0 then (b[0] as int - 0xE0) * 4096 + Low(b[1]) * 64 + Low(b[2])
    else (b[0] as int - 0xF0) * 262144 + Low(b[1]) * 4096 + Low(b[2]) * 64 + Low(b[3])
  }

  function Low(b: byte): int {
    b as int - 0x80
  }

  lemma FirstScalarOfEncoding(c: char, rest: Bytes)
    ensures var b := EncodeChar(c) + rest;
      && (b[0] >= 0x80 ==> |b| > 1) && (b[0] >= 0xE0 ==> |b| > 2) && (b[0] >= 0xF0 ==> |b| > 3)
      && FirstScalar(b) == c as int
  {
    var v := c as int;
    var b := EncodeChar(c) + rest;
    assert forall i :: 0 <= i < CharLen(c) ==> b[i] == EncodeChar(c)[i];
    if 0x800 <= v < 0x1_0000 {
      assert (v / 64) / 64 == v / 4096;
    } else if 0x1_0000 <= v {
      assert (v / 64) / 64 == v / 4096 && (v / 4096) / 64 == v / 262144;
    }
  }

  /** Two texts with the same bytes are the same text. */
  lemma {:induction false} EncodeInjective(s: string, t: string)
    requires Encode(s) == Encode(t)
    ensures s == t
  {
    if s != [] {
      FirstScalarOfEncoding(s[0], Encode(s[1..]));
      FirstScalarOfEncoding(t[0], Encode(t[1..]));
      assert s[0] == t[0];
      var head := CharLen(s[0]);
      assert Encode(s[1..]) == Encode(s)[head..] == Encode(t)[head..] == Encode(t[1..]);
      EncodeInjective(s[1..], t[1..]);
    }
  }

  /** The character index of a byte offset, which is how slicing a `str` by bytes reads here. */
  function CharIndex(content: string, offset: nat): (k: nat)
    ensures k <= |content|
  {
    if content == [] || offset == 0 then 0
    else if offset < CharLen(content[0]) then 0
    else 1 + CharIndex(content[1..], offset - CharLen(content[0]))
  }

  lemma {:induction false} CharIndexOfPrefix(content: string, k: nat)
    requires k <= |content|
    ensures CharIndex(content, ByteLen(content[..k])) == k
  {
    if k > 0 {
      CharIndexOfPrefix(content[1..], k - 1);
      assert content[..k][1..] == content[1..][..k - 1];
    }
  }
}
