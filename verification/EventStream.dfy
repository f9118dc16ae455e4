/** A reader of events, and how the events still unread stand for the part of the tree still unread. */
module EventStream {
  import opened XmlEvents

  /** The reader library's cursor.  On a balanced stream its end is never met inside an element. */
  class EventReader {
    var unread: seq<Event>

    constructor (events: seq<Event>)
      ensures unread == events
    {
      unread := events;
    }

    method Next() returns (e: Event)
      requires unread != []
      modifies this
      ensures [e] + unread == old(unread)
      ensures e == old(unread)[0] && unread == old(unread)[1..]
    {
      e, unread := unread[0], unread[1..];
    }
  }

  /** Unread: the siblings `rest`, the end tag of their parent `name`, then `tail`. */
  function Ahead(rest: Nodes, name: string, tail: seq<Event>): seq<Event> {
    Flatten(rest) + [End(name)] + tail
  }

  function FirstEvent(rest: Nodes, name: string): Event {
    match rest
    case Done => End(name)
    case Elem(n, a, _, _) => Start(n, a)
    case Hollow(n, a, _) => Empty(n, a)
    case Leaf(e, _) => e
  }

  /** Unread once the first event of `Ahead` is taken. */
  function Behind(rest: Nodes, name: string, tail: seq<Event>): seq<Event> {
    match rest
    case Done => tail
    case Elem(n, _, k, t) => Ahead(k, n, Ahead(t, name, tail))
    case Hollow(_, _, t) => Ahead(t, name, tail)
    case Leaf(_, t) => Ahead(t, name, tail)
  }

  lemma AheadStep(rest: Nodes, name: string, tail: seq<Event>)
    ensures Ahead(rest, name, tail) == [FirstEvent(rest, name)] + Behind(rest, name, tail)
  {
  }

  /** An open element: what is left of its content, and its name. */
  datatype Open = Open(rest: Nodes, name: string)

  function Unwind(stack: seq<Open>, tail: seq<Event>): seq<Event> {
    if stack == [] then tail else Ahead(stack[0].rest, stack[0].name, Unwind(stack[1..], tail))
  }

  function After(stack: seq<Open>): seq<Open>
    requires stack != []
  {
    var name, below := stack[0].name, stack[1..];
    match stack[0].rest
    case Done => below
    case Elem(n, _, k, t) => [Open(k, n), Open(t, name)] + below
    case Hollow(_, _, t) => [Open(t, name)] + below
    case Leaf(_, t) => [Open(t, name)] + below
  }

  predicate AllClean(stack: seq<Open>) { stack == [] || (Clean(stack[0].rest) && AllClean(stack[1..])) }

  predicate AllProper(stack: seq<Open>) { stack == [] || (Proper(stack[0].rest) && AllProper(stack[1..])) }

  lemma UnwindStep(stack: seq<Open>, tail: seq<Event>)
    requires stack != []
    ensures Unwind(stack, tail) ==
            [FirstEvent(stack[0].rest, stack[0].name)] + Unwind(After(stack), tail)
  {
    hide Ahead, Flatten;
    AheadStep(stack[0].rest, stack[0].name, Unwind(stack[1..], tail));
    var next, below := After(stack), stack[1..];
    match stack[0].rest
    case Done =>
    case Elem(n, _, k, t) =>
      assert next[1..] == [Open(t, stack[0].name)] + below && next[1..][1..] == below;
    case Hollow(_, _, t) => assert next[1..] == below;
    case Leaf(_, t) => assert next[1..] == below;
  }

  lemma CleanStep(stack: seq<Open>)
    requires stack != [] && AllProper(stack)
    ensures AllProper(After(stack))
    ensures var e := FirstEvent(stack[0].rest, stack[0].name);
            AllClean(stack) <==> (Structural(e) || Allowed(e)) && AllClean(After(stack))
  {
    hide Allowed;
    var next, below := After(stack), stack[1..];
    match stack[0].rest
    case Done =>
    case Elem(n, _, k, t) =>
      assert next[1..] == [Open(t, stack[0].name)] + below && next[1..][1..] == below;
    case Hollow(_, _, t) => assert next[1..] == below;
    case Leaf(_, t) => assert next[1..] == below;
  }

  lemma SkipStart(name: string, kids: Nodes, tail: seq<Event>)
    requires Proper(kids)
    ensures Unwind([Open(kids, name)], tail) == Ahead(kids, name, tail)
    ensures AllProper([Open(kids, name)])
    ensures Clean(kids) <==> AllClean([Open(kids, name)])
  {
    hide Ahead, Proper, Clean;
    var stack := [Open(kids, name)];
    assert stack[1..] == [];
    assert stack[0].rest == kids;
  }

  lemma AllowedLeaf(e: Event)
    ensures Allowed(e) <==> !e.Decl? && !e.DocType? && (e.GeneralRef? ==> DecodeGeneralRef(e.text).Some?)
  {
  }

  lemma LeafIsLeaf(stack: seq<Open>)
    requires stack != [] && AllProper(stack)
    ensures var e := FirstEvent(stack[0].rest, stack[0].name);
            |After(stack)| == |stack| + (if e.Start? then 1 else if e.End? then -1 else 0)
  {
    assert Proper(stack[0].rest);
  }
}
