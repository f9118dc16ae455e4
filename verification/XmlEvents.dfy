/** The XML of one file record, as the stream of events the reader library delivers,
    and as the tree such a (balanced) stream stands for. */
module XmlEvents {
  import opened Common

  datatype Event =
    | Start(name: string, attributes: string)
    | Empty(name: string, attributes: string)
    | End(name: string)
    | Text(text: string)
    | CData(text: string)
    | Comment(text: string)
    | PI(text: string)
    | GeneralRef(text: string)
    | Decl
    | DocType

  predicate Structural(e: Event) { e.Start? || e.Empty? || e.End? }

  /** Sibling nodes in first-child / next-sibling form. */
  datatype Nodes =
    | Done
    | Elem(name: string, attributes: string, kids: Nodes, next: Nodes)
    | Hollow(name: string, attributes: string, next: Nodes)
    | Leaf(event: Event, next: Nodes)

  function Flatten(n: Nodes): seq<Event> {
    match n
    case Done => []
    case Elem(name, a, k, t) => [Start(name, a)] + Flatten(k) + [End(name)] + Flatten(t)
    case Hollow(name, a, t) => [Empty(name, a)] + Flatten(t)
    case Leaf(e, t) => [e] + Flatten(t)
  }

  /** Leaves really are leaves. */
  predicate Proper(n: Nodes) {
    match n
    case Done => true
    case Elem(_, _, k, t) => Proper(k) && Proper(t)
    case Hollow(_, _, t) => Proper(t)
    case Leaf(e, t) => !Structural(e) && Proper(t)
  }

  function HexValue(c: char): Option<nat> {
    if '0' <= c <= '9' then Some(c as int - '0' as int)
    else if 'a' <= c <= 'f' then Some(c as int - 'a' as int + 10)
    else if 'A' <= c <= 'F' then Some(c as int - 'A' as int + 10)
    else None
  }

  /** Digits of `s` in the given radix, most significant first. */
  function Digits(s: string, radix: nat): Option<nat> {
    if s == [] then Some(0)
    else match (Digits(s[..|s| - 1], radix), HexValue(s[|s| - 1]))
      case (Some(high), Some(d)) => if d < radix then Some(high * radix + d) else None
      case _ => None
  }

  /** Rust's unsigned 32-bit parse: an optional plus sign, then at least one digit. */
  function ParseU32(s: string, radix: nat): Option<nat> {
    var body := if s != [] && s[0] == '+' then s[1..] else s;
    if body == [] then None
    else match Digits(body, radix)
      case None => None
      case Some(v) => if v < 0x1_0000_0000 then Some(v) else None
  }

  function CharFromU32(v: nat): Option<string> {
    if v < 0xD800 || 0xE000 <= v < 0x11_0000 then Some([v as char]) else None
  }

  /** A general entity reference's replacement text, `None` for the ones the store refuses. */
  function DecodeGeneralRef(value: string): Option<string> {
    if value == "amp" then Some("&")
    else if value == "lt" then Some("<")
    else if value == "gt" then Some(">")
    else if value == "quot" then Some("\"")
    else if value == "apos" then Some("'")
    else if |value| >= 2 && value[0] == '#' && (value[1] == 'x' || value[1] == 'X') then
      match ParseU32(value[2..], 16)
      case None => None
      case Some(v) => CharFromU32(v)
    else if |value| >= 1 && value[0] == '#' then
      match ParseU32(value[1..], 10)
      case None => None
      case Some(v) => CharFromU32(v)
    else None
  }

  /** The leaf events that may stand inside a file record. */
  predicate Allowed(e: Event) {
    !e.Decl? && !e.DocType? && (e.GeneralRef? ==> DecodeGeneralRef(e.text).Some?)
  }

  predicate Clean(n: Nodes) {
    match n
    case Done => true
    case Elem(_, _, k, t) => Clean(k) && Clean(t)
    case Hollow(_, _, t) => Clean(t)
    case Leaf(e, t) => Allowed(e) && Clean(t)
  }
}
