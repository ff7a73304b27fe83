/**
 Workspace-relative paths. The validator walks `Path::components`, which drops empty and inner `.`
 components, and then compares the rejoined components with the path; together that accepts exactly
 the paths whose pieces between slashes are all portable names.
 */
module PortablePath {
  import opened Wrappers
  import opened Text
  import opened Utf8

  const MAX_PATH_BYTES := 4 * 1024
  const MAX_IDENTIFIER_BYTES := 160

  /** `char::is_control`: Unicode's Cc. */
  predicate IsControl(c: char) {
    c as int < 0x20 || 0x7F <= c as int < 0xA0
  }

  function LowerChar(c: char): (r: char)
    ensures if 'A' <= c <= 'Z' then 'a' <= r <= 'z' && r as int - 'a' as int == c as int - 'A' as int else r == c
  {
    if 'A' <= c <= 'Z' then (c as int + 32) as char else c
  }

  function UpperChar(c: char): (r: char)
    ensures if 'a' <= c <= 'z' then 'A' <= r <= 'Z' && r as int - 'A' as int == c as int - 'a' as int else r == c
  {
    if 'a' <= c <= 'z' then (c as int - 32) as char else c
  }

  function ToAsciiLowercase(s: string): (r: string)
    ensures |r| == |s|
  {
    seq(|s|, i requires 0 <= i < |s| => LowerChar(s[i]))
  }

  function ToAsciiUppercase(s: string): (r: string)
    ensures |r| == |s|
  {
    seq(|s|, i requires 0 <= i < |s| => UpperChar(s[i]))
  }

  /** Capital letters become small ones, and nothing else changes. */
  lemma Lowercased(s: string, i: nat)
    requires i < |s|
    ensures var c, r := s[i], ToAsciiLowercase(s)[i];
      !('A' <= r <= 'Z') && (c == r || ('A' <= c <= 'Z' && r as int == c as int + ('a' as int - 'A' as int)))
  {
  }

  lemma Uppercased(s: string, i: nat)
    requires i < |s|
    ensures var c, r := s[i], ToAsciiUppercase(s)[i];
      !('a' <= r <= 'z') && (c == r || ('a' <= c <= 'z' && c as int == r as int + ('a' as int - 'A' as int)))
  {
  }

  /** `validate_identifier`. */
  predicate IdentifierOk(value: string) {
    value != "" && ByteLen(value) <= MAX_IDENTIFIER_BYTES && forall c :: c in value ==> !IsControl(c)
  }

  lemma IdentifierIff(value: string)
    ensures IdentifierOk(value) <==>
      && 0 < |value| && |Encode(value)| <= 160
      && forall i :: 0 <= i < |value| ==> 0x20 <= value[i] as int && !(0x7F <= value[i] as int <= 0x9F)
  {
    hide Encode, ByteLen;
    assert forall i :: 0 <= i < |value| ==> value[i] in value;
  }

  // ---- Splitting at slashes ----

  /** `str::split('/')`. */
  function Pieces(path: string): (parts: seq<string>)
    ensures parts != [] && forall p :: p in parts ==> '/' !in p
    decreases |path|
  {
    var slash := Find(path, '/', 0);
    if slash.None? then
      assert path[0..] == path;
      [path]
    else
      assert path[0..slash.value] == path[..slash.value];
      [path[..slash.value]] + Pieces(path[slash.value + 1..])
  }

  function JoinSlash(parts: seq<string>): string {
    if parts == [] then "" else if |parts| == 1 then parts[0] else parts[0] + "/" + JoinSlash(parts[1..])
  }

  lemma {:induction false} JoinOfPieces(path: string)
    ensures JoinSlash(Pieces(path)) == path
    decreases |path|
  {
    var slash := Find(path, '/', 0);
    if slash.Some? {
      var k := slash.value;
      JoinOfPieces(path[k + 1..]);
      assert path == path[..k] + "/" + path[k + 1..];
      assert Pieces(path)[1..] == Pieces(path[k + 1..]);
    }
  }

  datatype Component = CurDir | ParentDir | RootDir | Normal(name: string)

  function ComponentOf(part: string, first: bool): Option<Component> {
    if part == "" then None
    else if part == "." then (if first then Some(CurDir) else None)
    else if part == ".." then Some(ParentDir)
    else Some(Normal(part))
  }

  function ComponentsOf(parts: seq<string>, first: bool): seq<Component> {
    if parts == [] then []
    else
      var rest := ComponentsOf(parts[1..], false);
      match ComponentOf(parts[0], first)
      case None => rest
      case Some(component) => [component] + rest
  }

  /** `Path::components` on a POSIX path. */
  function Components(path: string): seq<Component> {
    (if path != "" && path[0] == '/' then [RootDir] else []) + ComponentsOf(Pieces(path), true)
  }

  // ---- Portable names ----

  function TrimDotsAndSpaces(s: string): string {
    if s != "" && s[|s| - 1] in {' ', '.'} then TrimDotsAndSpaces(s[..|s| - 1]) else s
  }

  function BeforeFirstDot(part: string): string {
    match Find(part, '.', 0)
    case None => part
    case Some(k) => part[..k]
  }

  predicate IsReservedWindowsName(part: string) {
    var stem := ToAsciiUppercase(TrimDotsAndSpaces(BeforeFirstDot(part)));
    || stem in {"CON", "PRN", "AUX", "NUL"}
    || (|stem| == 4 && stem[..3] in {"COM", "LPT"} && '1' <= stem[3] <= '9')
  }

  /** The name is one of these in any case, but for blanks behind it and an extension behind those. */
  ghost predicate NamesDevice(part: string, stem: string, blanks: string, rest: string) {
    && part == stem + (blanks + rest) && '.' !in stem
    && (forall c :: c in blanks ==> c == ' ') && (rest == "" || rest[0] == '.')
    && IsDevice(ToAsciiUppercase(stem))
  }

  ghost predicate IsDevice(name: string) {
    || name == "CON" || name == "PRN" || name == "AUX" || name == "NUL"
    || (|name| == 4 && '1' <= name[3] <= '9' && (name == "COM" + [name[3]] || name == "LPT" + [name[3]]))
  }

  lemma DeviceNumbers(name: string)
    ensures IsDevice(name)
      <==> || name in {"CON", "PRN", "AUX", "NUL"}
           || (|name| == 4 && name[..3] in {"COM", "LPT"} && '1' <= name[3] <= '9')
  {
    if |name| == 4 {
      assert name == name[..3] + [name[3]];
      assert ("COM" + [name[3]])[..3] == "COM" && ("LPT" + [name[3]])[..3] == "LPT";
    }
  }

  lemma {:induction false} TrimmedBlanks(s: string)
    requires '.' !in s
    ensures var t := TrimDotsAndSpaces(s);
      |t| <= |s| && s[..|t|] == t && (forall c :: c in s[|t|..] ==> c == ' ') && (t != "" ==> t[|t| - 1] != ' ')
  {
    if s != "" && s[|s| - 1] in {' ', '.'} {
      TrimmedBlanks(s[..|s| - 1]);
      var t := TrimDotsAndSpaces(s[..|s| - 1]);
      assert s[|t|..] == s[..|s| - 1][|t|..] + [s[|s| - 1]];
      assert s[..|t|] == s[..|s| - 1][..|t|];
    } else {
      assert s[..|s|] == s && s[|s|..] == "";
    }
  }

  lemma UpToFirstDot(part: string)
    ensures var s := BeforeFirstDot(part);
      '.' !in s && |s| <= |part| && part == s + part[|s|..] && (part[|s|..] == "" || part[|s|] == '.')
  {
    var dot := Find(part, '.', 0);
    if dot.Some? {
      assert part[0..dot.value] == part[..dot.value];
    } else {
      assert part[0..] == part;
    }
  }

  lemma ReservedNames(part: string) returns (stem: string, blanks: string, rest: string)
    ensures stem == TrimDotsAndSpaces(BeforeFirstDot(part))
    ensures part == stem + (blanks + rest) && '.' !in stem && '.' !in blanks
    ensures (forall c :: c in blanks ==> c == ' ') && (rest == "" || rest[0] == '.')
    ensures stem != "" ==> stem[|stem| - 1] != ' '
  {
    var s := BeforeFirstDot(part);
    UpToFirstDot(part);
    TrimmedBlanks(s);
    stem := TrimDotsAndSpaces(s);
    blanks, rest := s[|stem|..], part[|s|..];
    assert s == stem + blanks;
    assert part == stem + (blanks + rest);
    assert forall c :: c in stem ==> c in s;
  }

  lemma SameStem(stem: string, blanks: string, rest: string, stem': string, blanks': string, rest': string)
    requires stem + (blanks + rest) == stem' + (blanks' + rest')
    requires '.' !in stem && '.' !in stem' && stem != "" && stem' != ""
    requires stem[|stem| - 1] != ' ' && stem'[|stem'| - 1] != ' '
    requires (forall c :: c in blanks ==> c == ' ') && (forall c :: c in blanks' ==> c == ' ')
    requires (rest == "" || rest[0] == '.') && (rest' == "" || rest'[0] == '.')
    ensures stem == stem'
  {
    if |stem| < |stem'| {
      ShorterStem(stem, blanks, rest, stem', blanks', rest');
    } else if |stem'| < |stem| {
      ShorterStem(stem', blanks', rest', stem, blanks, rest);
    }
    assert (stem + (blanks + rest))[..|stem|] == stem && (stem' + (blanks' + rest'))[..|stem'|] == stem';
  }

  lemma ShorterStem(stem: string, blanks: string, rest: string, stem': string, blanks': string, rest': string)
    requires |stem| < |stem'| && '.' !in stem' && stem'[|stem'| - 1] != ' '
    requires (forall c :: c in blanks ==> c == ' ') && (rest == "" || rest[0] == '.')
    ensures stem + (blanks + rest) != stem' + (blanks' + rest')
  {
    var s, t := stem + (blanks + rest), stem' + (blanks' + rest');
    var last, dot := |stem'| - 1, |stem| + |blanks|;
    assert t[last] == stem'[last];
    if last < dot {
      assert blanks[last - |stem|] in blanks;
      assert s[last] == ' ';
    } else if rest == "" {
      assert |s| < |t|;
    } else {
      assert s[dot] == '.' && t[dot] == stem'[dot];
      assert stem'[dot] in stem';
    }
  }

  lemma DeviceStem(stem: string)
    requires IsDevice(ToAsciiUppercase(stem))
    ensures stem != "" && stem[|stem| - 1] != ' '
  {
    var name := ToAsciiUppercase(stem);
    assert name != "" && name[|name| - 1] != ' ';
    assert name[|name| - 1] == UpperChar(stem[|stem| - 1]);
  }

  /** Exactly these names are reserved. */
  lemma ReservedIff(part: string)
    ensures IsReservedWindowsName(part) <==> exists stem, blanks, rest :: NamesDevice(part, stem, blanks, rest)
  {
    hide ToAsciiUppercase, TrimDotsAndSpaces, BeforeFirstDot, IsDevice;
    var stem, blanks, rest := ReservedNames(part);
    DeviceNumbers(ToAsciiUppercase(stem));
    assert IsReservedWindowsName(part) ==> NamesDevice(part, stem, blanks, rest);
    forall stem', blanks', rest' | NamesDevice(part, stem', blanks', rest') ensures IsReservedWindowsName(part) {
      DeviceStem(stem');
      if stem == "" {
        NoStem(blanks, rest, stem', blanks', rest');
      } else {
        SameStem(stem, blanks, rest, stem', blanks', rest');
      }
    }
  }

  lemma NoStem(blanks: string, rest: string, stem': string, blanks': string, rest': string)
    requires stem' != "" && '.' !in stem' && stem'[|stem'| - 1] != ' '
    requires (forall c :: c in blanks ==> c == ' ') && (rest == "" || rest[0] == '.')
    ensures "" + (blanks + rest) != stem' + (blanks' + rest')
  {
    ShorterStem("", blanks, rest, stem', blanks', rest');
  }

  predicate PortableName(part: string) {
    && part != "" && ByteLen(part) <= 255
    && part[|part| - 1] !in {' ', '.'}
    && !IsReservedWindowsName(part)
  }

  predicate ProtectedFirst(part: string) {
    ToAsciiLowercase(part) in {".git", ".opticcode"}
  }

  predicate ForbiddenChar(c: char) {
    c in {'\\', '\0', ':'} || IsControl(c)
  }

  /** The paths an intent or a plan may name. */
  predicate PathOk(path: string) {
    && path != "" && ByteLen(path) <= MAX_PATH_BYTES
    && (forall c :: c in path ==> !ForbiddenChar(c))
    && (forall part :: part in Pieces(path) ==> PortableName(part))
    && !ProtectedFirst(Pieces(path)[0])
  }

  // ---- What a path says, on its text ----

  /** A name between two slashes, or between one of them and an end of the path. */
  ghost predicate StandsBetween(path: string, front: string, name: string, back: string) {
    && path == front + (name + back) && '/' !in name
    && (front == "" || front[|front| - 1] == '/') && (back == "" || back[0] == '/')
  }

  lemma {:induction false} PieceStands(path: string, name: string) returns (front: string, back: string)
    requires name in Pieces(path)
    ensures StandsBetween(path, front, name, back)
    decreases |path|
  {
    var slash := Find(path, '/', 0);
    if slash.None? {
      front, back := "", "";
    } else {
      var k := slash.value;
      if name == path[..k] {
        front, back := "", path[k..];
        assert path[0..k] == path[..k];
      } else {
        front, back := PieceStands(path[k + 1..], name);
        assert path == path[..k + 1] + path[k + 1..];
        front := path[..k + 1] + front;
      }
    }
  }

  lemma {:induction false} StandsAsPiece(path: string, front: string, name: string, back: string)
    requires StandsBetween(path, front, name, back)
    ensures name in Pieces(path) && (front == "" ==> name == Pieces(path)[0])
    decreases |path|
  {
    if front == "" {
      assert path == name + back;
      FirstPiece(name, back);
    } else {
      hide Pieces;
      FirstSlash(path, |front| - 1);
      var k := Find(path, '/', 0).value;
      assert path[k + 1..] == front[k + 1..] + (name + back);
      StandsAsPiece(path[k + 1..], front[k + 1..], name, back);
      LaterPieces(path);
    }
  }

  lemma LaterPieces(path: string)
    ensures var slash := Find(path, '/', 0);
      slash.Some? ==> Pieces(path) == [path[..slash.value]] + Pieces(path[slash.value + 1..])
  {
  }

  lemma FirstPiece(name: string, back: string)
    requires '/' !in name && (back == "" || back[0] == '/')
    ensures Pieces(name + back)[0] == name
  {
    var path := name + back;
    var slash := Find(path, '/', 0);
    if slash.Some? {
      NowhereIn(path, '/', 0, slash.value);
    }
    if back == "" {
      assert path == name;
    } else {
      assert path[|name|] == '/';
      FirstSlash(path, |name|);
      assert forall i :: 0 <= i < |name| ==> path[i] == name[i];
    }
  }

  ghost predicate CharOk(c: char) {
    c != '\\' && c != ':' && 0x20 <= c as int && !(0x7F <= c as int <= 0x9F)
  }

  ghost predicate NameOk(name: string) {
    && name != "" && |Encode(name)| <= 255 && name[|name| - 1] != ' ' && name[|name| - 1] != '.'
    && !exists stem, blanks, rest :: NamesDevice(name, stem, blanks, rest)
  }

  /** The first name is that of a metadata directory, in any case. */
  ghost predicate NamesMetadata(path: string, name: string, back: string) {
    && StandsBetween(path, "", name, back)
    && (ToAsciiLowercase(name) == ".git" || ToAsciiLowercase(name) == ".opticcode")
  }

  ghost predicate WellNamed(path: string) {
    && path != "" && |Encode(path)| <= 4096 && (forall c :: c in path ==> CharOk(c))
    && (forall front, name, back :: StandsBetween(path, front, name, back) ==> NameOk(name))
    && !exists name, back :: NamesMetadata(path, name, back)
  }

  /** A path is accepted if and only if every name in it is portable and the first is not protected. */
  lemma PathOkIff(path: string)
    ensures PathOk(path) <==> WellNamed(path)
  {
    hide IsReservedWindowsName, NamesDevice, Pieces, StandsBetween, ToAsciiLowercase;
    NamesAreOk(path);
    NotMetadata(path);
    assert forall c :: ForbiddenChar(c) <==> !CharOk(c);
  }

  lemma NamesAreOk(path: string)
    ensures (forall part :: part in Pieces(path) ==> PortableName(part))
      <==> forall front, name, back :: StandsBetween(path, front, name, back) ==> NameOk(name)
  {
    hide PortableName, NameOk, Pieces, StandsBetween;
    forall part ensures PortableName(part) <==> NameOk(part) {
      PortableIff(part);
    }
    forall front, name, back | StandsBetween(path, front, name, back) ensures name in Pieces(path) {
      StandsAsPiece(path, front, name, back);
    }
    forall part | part in Pieces(path) ensures exists front, back :: StandsBetween(path, front, part, back) {
      var front, back := PieceStands(path, part);
    }
  }

  lemma PortableIff(part: string)
    ensures PortableName(part) <==> NameOk(part)
  {
    hide IsReservedWindowsName, NamesDevice;
    ReservedIff(part);
  }

  lemma NotMetadata(path: string)
    ensures ProtectedFirst(Pieces(path)[0]) <==> exists name, back :: NamesMetadata(path, name, back)
  {
    hide Pieces, ToAsciiLowercase;
    forall name, back | NamesMetadata(path, name, back) ensures name == Pieces(path)[0] {
      StandsAsPiece(path, "", name, back);
    }
    var back := FirstStands(path);
    if ProtectedFirst(Pieces(path)[0]) {
      assert NamesMetadata(path, Pieces(path)[0], back);
    }
  }

  lemma FirstStands(path: string) returns (back: string)
    ensures StandsBetween(path, "", Pieces(path)[0], back)
  {
    var slash := Find(path, '/', 0);
    back := if slash.None? then "" else path[slash.value..];
    assert slash.Some? ==> path[0..slash.value] == path[..slash.value];
  }

  // ---- The validator ----

  ghost predicate AllNormalNames(components: seq<Component>) {
    forall i :: 0 <= i < |components| ==> components[i].Normal? && PortableName(components[i].name)
  }

  function Names(components: seq<Component>): (names: seq<string>)
    ensures |names| == |components|
  {
    seq(|components|, i requires 0 <= i < |components| => if components[i].Normal? then components[i].name else "")
  }

  /** The loop over the components: the names, or the first that is not portable. */
  method NormalParts(components: seq<Component>) returns (r: Result<seq<string>, string>)
    ensures r.Ok? <==> AllNormalNames(components)
    ensures r.Ok? ==> r.value == Names(components)
  {
    hide PortableName;
    var parts: seq<string> := [];
    for i := 0 to |components|
      invariant AllNormalNames(components[..i]) && parts == Names(components[..i])
    {
      assert components[..i + 1] == components[..i] + [components[i]];
      match components[i]
      case Normal(part) =>
        if !PortableName(part) {
          return Err("intent.path");
        }
        parts := parts + [part];
      case _ =>
        return Err("intent.path");
    }
    assert components[..|components|] == components;
    return Ok(parts);
  }

  method ValidateRelativePath(path: string) returns (r: Result<string, string>)
    ensures r.Ok? <==> PathOk(path)
    ensures r.Ok? ==> r.value == path
  {
    hide *;
    PathOkUnfolds(path);
    if path == "" || ByteLen(path) > MAX_PATH_BYTES || exists c :: c in path && ForbiddenChar(c) {
      return Err("intent.path");
    }
    if path[0] == '/' {
      AbsoluteIsNotOk(path);
      return Err("intent.path");
    }
    var parts := NormalParts(Components(path));
    CanonicalIffPortable(path);
    if parts.Err? {
      return Err(parts.error);
    }
    if JoinSlash(parts.value) != path {
      return Err("intent.path");
    }
    SameNames(path);
    if parts.value != [] && ProtectedFirst(parts.value[0]) {
      return Err("intent.path");
    }
    return Ok(JoinSlash(parts.value));
  }

  lemma PathOkUnfolds(path: string)
    ensures PathOk(path) <==>
      && path != "" && ByteLen(path) <= MAX_PATH_BYTES && !(exists c :: c in path && ForbiddenChar(c))
      && AllPortable(Pieces(path)) && !ProtectedFirst(Pieces(path)[0])
  {
    hide PortableName, ProtectedFirst, ForbiddenChar, Pieces;
  }

  ghost predicate AllPortable(parts: seq<string>) {
    forall part :: part in parts ==> PortableName(part)
  }

  lemma AbsoluteIsNotOk(path: string)
    requires path != "" && path[0] == '/'
    ensures !AllPortable(Pieces(path))
  {
    assert Find(path, '/', 0) == Some(0);
    assert Pieces(path)[0] == "" && "" in Pieces(path);
  }

  /** The length of the joined pieces, counting one slash behind each. */
  function Weight(parts: seq<string>): nat {
    if parts == [] then 0 else |parts[0]| + 1 + Weight(parts[1..])
  }

  lemma {:induction false} JoinLength(parts: seq<string>)
    ensures parts != [] ==> |JoinSlash(parts)| + 1 == Weight(parts)
  {
    if |parts| > 1 {
      JoinLength(parts[1..]);
    }
  }

  /** Dropping a component makes the path shorter. */
  lemma {:induction false} ComponentsLoseWeight(parts: seq<string>, first: bool)
    requires AllNormalNames(ComponentsOf(parts, first))
    ensures var names := Names(ComponentsOf(parts, first));
      Weight(names) <= Weight(parts) && (Weight(names) == Weight(parts) ==> names == parts)
  {
    hide PortableName;
    if parts != [] {
      var all, rest := ComponentsOf(parts, first), ComponentsOf(parts[1..], false);
      var c := ComponentOf(parts[0], first);
      if c.None? {
        ComponentsLoseWeight(parts[1..], false);
      } else {
        assert all == [c.value] + rest && all[1..] == rest;
        assert all[0].Normal?;
        ComponentsLoseWeight(parts[1..], false);
        assert Names(all) == [parts[0]] + Names(rest);
        assert parts == [parts[0]] + parts[1..];
      }
    }
  }

  lemma PortableIsNormal(part: string, first: bool)
    requires PortableName(part)
    ensures ComponentOf(part, first) == Some(Normal(part))
  {
    assert part != "." && part != "..";
  }

  lemma {:induction false} PortableComponents(parts: seq<string>, first: bool)
    requires AllPortable(parts)
    ensures AllNormalNames(ComponentsOf(parts, first)) && Names(ComponentsOf(parts, first)) == parts
  {
    hide PortableName, ComponentOf;
    if parts != [] {
      PortableComponents(parts[1..], false);
      PortableIsNormal(parts[0], first);
      assert parts == [parts[0]] + parts[1..];
      assert Names(ComponentsOf(parts, first)) == [parts[0]] + Names(ComponentsOf(parts[1..], false));
    }
  }

  lemma RelativeComponents(path: string)
    requires path != "" && path[0] != '/'
    ensures Components(path) == ComponentsOf(Pieces(path), true)
  {
    hide ComponentsOf, Pieces;
  }

  lemma SameNames(path: string)
    requires path != "" && path[0] != '/' && AllNormalNames(Components(path))
      && JoinSlash(Names(Components(path))) == path
    ensures Names(Components(path)) == Pieces(path) && Pieces(path) != []
  {
    assert JoinSlash([]) == "";
    hide *;
    RelativeComponents(path);
    var names := Names(Components(path));
    JoinOfPieces(path);
    JoinLength(names);
    JoinLength(Pieces(path));
    ComponentsLoseWeight(Pieces(path), true);
  }

  lemma NormalNamesPortable(components: seq<Component>)
    requires AllNormalNames(components)
    ensures AllPortable(Names(components))
  {
    hide PortableName;
  }

  /** Rejoining the components gives the path back exactly when every piece is a portable name. */
  lemma CanonicalIffPortable(path: string)
    requires path != "" && path[0] != '/'
    ensures AllNormalNames(Components(path)) && JoinSlash(Names(Components(path))) == path
      <==> AllPortable(Pieces(path))
  {
    hide *;
    RelativeComponents(path);
    JoinOfPieces(path);
    if AllPortable(Pieces(path)) {
      PortableComponents(Pieces(path), true);
    }
    if AllNormalNames(Components(path)) && JoinSlash(Names(Components(path))) == path {
      SameNames(path);
      NormalNamesPortable(Components(path));
    }
  }

  /** The part of a path behind its last slash. */
  function FileName(path: string): string {
    var parts := Pieces(path);
    parts[|parts| - 1]
  }

  /** The index of the last dot, if there is one. */
  function LastDot(s: string): (r: Option<nat>)
    ensures r.Some? ==> r.value < |s| && s[r.value] == '.' && '.' !in s[r.value + 1..]
    ensures r.None? ==> '.' !in s
  {
    if s == "" then None
    else if s[|s| - 1] == '.' then Some(|s| - 1)
    else
      var r := LastDot(s[..|s| - 1]);
      assert s == s[..|s| - 1] + [s[|s| - 1]];
      assert r.Some? ==> s[r.value + 1..] == s[..|s| - 1][r.value + 1..] + [s[|s| - 1]];
      r
  }

  /** `Path::extension`, in lower case; a leading dot does not start an extension. */
  function ExtensionOf(path: string): Option<string> {
    var name := FileName(path);
    match LastDot(name)
    case None => None
    case Some(k) => if k == 0 || name == ".." then None else Some(ToAsciiLowercase(name[k + 1..]))
  }

  /** The file name is what stands behind the last slash. */
  lemma {:induction false} NameOfFile(front: string, name: string)
    requires '/' !in name && (front == "" || front[|front| - 1] == '/')
    ensures FileName(front + name) == name
    decreases |front|
  {
    var path := front + name;
    if front == "" {
      assert path == name && Find(path, '/', 0).None?;
    } else {
      var slash := Find(path, '/', 0);
      assert path[|front| - 1] == '/';
      FirstSlash(path, |front| - 1);
      var k := slash.value;
      var rest := front[k + 1..];
      assert path[k + 1..] == rest + name;
      assert rest == "" || rest[|rest| - 1] == '/';
      NameOfFile(rest, name);
    }
  }

  lemma FirstSlash(path: string, i: nat)
    requires i < |path| && path[i] == '/'
    ensures Find(path, '/', 0).Some? && Find(path, '/', 0).value <= i
  {
    assert path[0..] == path && path[i] in path;
    var slash := Find(path, '/', 0);
    if slash.Some? {
      NowhereIn(path, '/', 0, slash.value);
    }
  }

  lemma NowhereIn(s: string, c: char, low: nat, high: nat)
    requires low <= high <= |s| && c !in s[low..high]
    ensures forall i :: low <= i < high ==> s[i] != c
  {
    assert forall i :: low <= i < high ==> s[low..high][i - low] == s[i];
  }

  lemma LastDotIs(name: string, k: nat)
    requires k < |name| && name[k] == '.' && '.' !in name[k + 1..]
    ensures LastDot(name) == Some(k)
  {
    hide *;
    var r := LastDot(name);
    assert r.Some? by { assert '.' in name; }
    NoneBehind(name, k);
    NoneBehind(name, r.value);
  }

  lemma NoneBehind(name: string, k: nat)
    requires k < |name| && '.' !in name[k + 1..]
    ensures forall i :: k < i < |name| ==> name[i] != '.'
  {
    NowhereIn(name, '.', k + 1, |name|);
  }

  /** The extension is what stands behind the last dot of the file name, if something stands in front of it. */
  lemma ExtensionOfFile(front: string, stem: string, extension: string)
    requires '/' !in stem && '/' !in extension && '.' !in extension && (front == "" || front[|front| - 1] == '/')
    requires stem != "" && !(stem == "." && extension == "")
    ensures ExtensionOf(front + (stem + ("." + extension))) == Some(ToAsciiLowercase(extension))
  {
    hide FileName, LastDot;
    var name := stem + ("." + extension);
    assert '/' !in name;
    NameOfFile(front, name);
    assert name[|stem| + 1..] == extension;
    LastDotIs(name, |stem|);
    assert |name| == |stem| + 1 + |extension| && name[0] == stem[0];
    if |stem| == 1 {
      assert stem == [stem[0]];
    }
  }

  lemma NoExtension(front: string, name: string)
    requires '/' !in name && (front == "" || front[|front| - 1] == '/')
    requires '.' !in name || (name[0] == '.' && '.' !in name[1..]) || name == ".."
    ensures ExtensionOf(front + name).None?
  {
    hide FileName, LastDot;
    NameOfFile(front, name);
    if '.' !in name {
      assert LastDot(name).None?;
    } else if name[0] == '.' && '.' !in name[1..] {
      LastDotIs(name, 0);
    }
  }
}
