/**
 The JSON grammar as text: every way to write an object, array, string or scalar.

 After RFC 8259, sections 2 to 7: any white space around the structural characters, any
 escapes inside strings. A scalar is only asked to keep to the characters of numbers and
 names, a superset of the grammar. Lists are linked so that printing recurs on structure.
 */
module JsonText {
  /** One unit of a string: an unescaped character, a two-character escape, a `\u` escape. */
  datatype Item = Unescaped(c: char) | Short(c: char) | Unicode(digits: string)

  datatype Value =
    | Scalar(text: string)
    | Str(items: seq<Item>)
    | Arr(gap: string, elements: Elements)
    | Obj(gap: string, members: Members)

  datatype Elements = NoElement | Element(before: string, value: Value, after: string, rest: Elements)

  datatype Members =
    | NoMember
    | Member(before: string, key: seq<Item>, afterKey: string, beforeValue: string, value: Value, after: string, rest: Members)

  // ---------------------------------------------------------------------
  // Well-formed text
  // ---------------------------------------------------------------------

  predicate IsGap(s: string) {
    forall i :: 0 <= i < |s| ==> s[i] in {' ', '\t', '\n', '\r'}
  }

  predicate IsHexDigit(c: char) {
    '0' <= c <= '9' || 'a' <= c <= 'f' || 'A' <= c <= 'F'
  }

  predicate ItemOk(item: Item) {
    match item
    case Unescaped(c) => c >= ' ' && c != '"' && c != '\\'
    case Short(c) => c in {'"', '\\', '/', 'b', 'f', 'n', 'r', 't'}
    case Unicode(digits) => |digits| == 4 && forall i :: 0 <= i < 4 ==> IsHexDigit(digits[i])
  }

  predicate ItemsOk(items: seq<Item>) {
    forall i :: 0 <= i < |items| ==> ItemOk(items[i])
  }

  predicate ScalarChar(c: char) {
    '0' <= c <= '9' || 'a' <= c <= 'z' || 'A' <= c <= 'Z' || c in {'+', '-', '.'}
  }

  predicate ValueOk(v: Value) {
    match v
    case Scalar(text) => forall i :: 0 <= i < |text| ==> ScalarChar(text[i])
    case Str(items) => ItemsOk(items)
    case Arr(gap, elements) => IsGap(gap) && ElementsOk(elements)
    case Obj(gap, members) => IsGap(gap) && MembersOk(members)
  }

  predicate ElementsOk(elements: Elements) {
    match elements
    case NoElement => true
    case Element(before, value, after, rest) => IsGap(before) && ValueOk(value) && IsGap(after) && ElementsOk(rest)
  }

  predicate MembersOk(members: Members) {
    match members
    case NoMember => true
    case Member(before, key, afterKey, beforeValue, value, after, rest) =>
      && IsGap(before) && ItemsOk(key) && IsGap(afterKey) && IsGap(beforeValue)
      && ValueOk(value) && IsGap(after) && MembersOk(rest)
  }

  // ---------------------------------------------------------------------
  // Printing
  // ---------------------------------------------------------------------

  function PrintItem(item: Item): string {
    match item
    case Unescaped(c) => [c]
    case Short(c) => ['\\', c]
    case Unicode(digits) => ['\\', 'u'] + digits
  }

  function PrintItems(items: seq<Item>): string {
    if items == [] then "" else PrintItems(items[..|items| - 1]) + PrintItem(items[|items| - 1])
  }

  function PrintString(items: seq<Item>): string {
    "\"" + PrintItems(items) + "\""
  }

  function Print(v: Value): string {
    match v
    case Scalar(text) => text
    case Str(items) => PrintString(items)
    case Arr(gap, elements) => "[" + (if elements.NoElement? then gap else PrintElements(elements)) + "]"
    case Obj(gap, members) => "{" + PrintBody(gap, members) + "}"
  }

  /** What an object holds between its braces. */
  function PrintBody(gap: string, members: Members): string
    decreases members, 1
  {
    if members.NoMember? then gap else PrintMembers(members)
  }

  function PrintElements(elements: Elements): string {
    match elements
    case NoElement => ""
    case Element(before, value, after, rest) =>
      before + Print(value) + after + if rest.NoElement? then "" else "," + PrintElements(rest)
  }

  function PrintMembers(members: Members): string
    decreases members, 0
  {
    match members
    case NoMember => ""
    case Member(before, key, afterKey, beforeValue, value, after, rest) =>
      before + PrintString(key) + afterKey + ":" + beforeValue + Print(value) + after
      + if rest.NoMember? then "" else "," + PrintMembers(rest)
  }

  // ---------------------------------------------------------------------
  // Strings without braces
  // ---------------------------------------------------------------------

  predicate NoBraceIn(items: seq<Item>) {
    forall i :: 0 <= i < |items| ==> items[i] != Unescaped('{') && items[i] != Unescaped('}')
  }

  /** No string of the value, key or not, shows a brace. */
  predicate BraceFree(v: Value) {
    match v
    case Scalar(_) => true
    case Str(items) => NoBraceIn(items)
    case Arr(_, elements) => BraceFreeElements(elements)
    case Obj(_, members) => BraceFreeMembers(members)
  }

  predicate BraceFreeElements(elements: Elements) {
    elements.Element? ==> BraceFree(elements.value) && BraceFreeElements(elements.rest)
  }

  predicate BraceFreeMembers(members: Members) {
    members.Member? ==> NoBraceIn(members.key) && BraceFree(members.value) && BraceFreeMembers(members.rest)
  }
}
