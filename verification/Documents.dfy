/** What every document scanner reports about a key: the line it stands on and that line's text. */
module Documents {
  import opened Wrappers
  import opened Text

  datatype Location = Location(line: nat, source: string)

  /** `content.lines().nth(line - 1).unwrap_or_default()`. */
  function LineText(content: string, line: nat): string {
    if 1 <= line <= |Lines(content)| then Lines(content)[line - 1] else ""
  }

  /** The one-based line on which the character at index `i` stands. */
  function LineAt(content: string, i: nat): nat
    requires i <= |content|
  {
    1 + Newlines(content[..i])
  }

  datatype ParsedDocument = ParsedDocument(
    rootOrder: seq<string>,
    locations: map<string, Location>,
    values: map<string, string>)

  /** `SlicePanic` is a slice that does not end on a character boundary, or ends before it starts. */
  datatype ParseError = Malformed(line: nat) | Duplicate(path: string) | Unreadable | SlicePanic

  /** The location is a line of the document, and says what stands there. */
  predicate LocatedIn(content: string, l: Location) {
    1 <= l.line <= |Lines(content)| && l.source == Lines(content)[l.line - 1]
  }

  ghost predicate AllLocated(content: string, locations: map<string, Location>) {
    forall k :: k in locations ==> LocatedIn(content, locations[k])
  }
}
