/** Importing a file record from a tape schema: the record is copied event by event without
    comments and layout, and the tape's barcode is added to its extended attributes. */
module RecordBarcode {
  import opened Common
  import opened EventStream
  import opened FileRecord
  import opened RecordUid
  import opened XmlEvents

  predicate Formatting(name: string) {
    name == "file" || name == "extendedattributes" || name == "xattr" || name == "extentinfo" || name == "extent"
  }

  predicate XmlWhitespace(s: string) {
    s != "" && forall i :: 0 <= i < |s| ==> s[i] in {' ', '\t', '\r', '\n'}
  }

  /** Is the event left out of the copy, given that it stands in a formatting element or not? */
  predicate Dropped(e: Event, formatting: bool) {
    e.Comment? || e.PI? || (e.Text? && formatting && XmlWhitespace(e.text))
  }

  function XattrEvents(barcode: string): seq<Event> {
    [Start("xattr", ""), Start("key", ""), Text("Barcode"), End("key"),
     Start("value", ""), Text(barcode), End("value"), End("xattr")]
  }

  function ContainerEvents(barcode: string): seq<Event> {
    [Start("extendedattributes", "")] + XattrEvents(barcode) + [End("extendedattributes")]
  }

  // ----- the copy as a tree

  function Stripped(n: Nodes, formatting: bool): Nodes {
    match n
    case Done => Done
    case Elem(name, a, k, t) => Elem(name, a, Stripped(k, Formatting(name)), Stripped(t, formatting))
    case Hollow(name, a, t) => Hollow(name, a, Stripped(t, formatting))
    case Leaf(e, t) => if Dropped(e, formatting) then Stripped(t, formatting) else Leaf(e, Stripped(t, formatting))
  }

  function XattrContent(barcode: string): Nodes {
    Elem("key", "", Leaf(Text("Barcode"), Done), Elem("value", "", Leaf(Text(barcode), Done), Done))
  }

  function Tagged(kids: Nodes, barcode: string): Nodes { Snoc(kids, "xattr", XattrContent(barcode)) }

  /** Every extended-attribute child gets the barcode. */
  function Labelled(kids: Nodes, barcode: string): Nodes {
    match kids
    case Done => Done
    case Elem(n, a, k, t) =>
      Elem(n, a, if n == "extendedattributes" then Tagged(Stripped(k, true), barcode) else Stripped(k, Formatting(n)),
           Labelled(t, barcode))
    case Hollow(n, a, t) =>
      if n == "extendedattributes" then Elem(n, a, Tagged(Done, barcode), Labelled(t, barcode))
      else Hollow(n, a, Labelled(t, barcode))
    case Leaf(e, t) => if Dropped(e, true) then Labelled(t, barcode) else Leaf(e, Labelled(t, barcode))
  }

  function WithBarcode(kids: Nodes, barcode: string): Nodes {
    if Children(kids, "extendedattributes") > 0 then Labelled(kids, barcode)
    else Snoc(Labelled(kids, barcode), "extendedattributes", Tagged(Done, barcode))
  }

  // ----- the copy as it is written

  /** The stripped copy of some siblings, followed by `below`. */
  function Rest(rest: Nodes, formatting: bool, below: seq<Event>): seq<Event> {
    Flatten(Stripped(rest, formatting)) + below
  }

  /** What copying the rest of an element will still write, followed by `below`. */
  function Remainder(rest: Nodes, name: string, below: seq<Event>): seq<Event> {
    Rest(rest, Formatting(name), [End(name)] + below)
  }

  function Copied(stack: seq<Open>, final: seq<Event>): seq<Event> {
    if stack == [] then final else Remainder(stack[0].rest, stack[0].name, Copied(stack[1..], final))
  }

  /** One flag for each element being copied, the innermost last: is its whitespace mere layout? */
  function Flags(stack: seq<Open>): (flags: seq<bool>)
    ensures flags != []
  {
    if stack == [] then [true] else Flags(stack[1..]) + [Formatting(stack[0].name)]
  }

  function Written(e: Event, formatting: bool): seq<Event> { if Dropped(e, formatting) then [] else [e] }

  lemma RestStep(rest: Nodes, formatting: bool, below: seq<Event>)
    ensures rest.Done? ==> Rest(rest, formatting, below) == below
    ensures rest.Elem? ==>
      Rest(rest, formatting, below) ==
      [Start(rest.name, rest.attributes)] + Remainder(rest.kids, rest.name, Rest(rest.next, formatting, below))
    ensures rest.Hollow? ==>
      Rest(rest, formatting, below) == [Empty(rest.name, rest.attributes)] + Rest(rest.next, formatting, below)
    ensures rest.Leaf? ==>
      Rest(rest, formatting, below) == Written(rest.event, formatting) + Rest(rest.next, formatting, below)
  {
    hide Formatting, XmlWhitespace;
    if rest.Leaf? {
      assert [] + Rest(rest.next, formatting, below) == Rest(rest.next, formatting, below);
    }
  }

  lemma FlagsStep(stack: seq<Open>)
    requires stack != []
    ensures var e, flags := FirstEvent(stack[0].rest, stack[0].name), Flags(stack);
      && flags[|flags| - 1] == Formatting(stack[0].name)
      && (stack[0].rest.Elem? ==> Flags(After(stack)) == flags + [Formatting(stack[0].rest.name)])
      && (stack[0].rest.Done? ==> Flags(After(stack)) == flags[..|flags| - 1])
      && (stack[0].rest.Hollow? || stack[0].rest.Leaf? ==> Flags(After(stack)) == flags)
  {
    hide Formatting;
    var next, below := After(stack), stack[1..];
    match stack[0].rest
    case Done =>
    case Elem(n, a, k, t) =>
      assert next[1..] == [Open(t, stack[0].name)] + below && next[1..][1..] == below;
    case Hollow(_, _, t) => assert next[1..] == below;
    case Leaf(_, t) => assert next[1..] == below;
  }

  lemma CopiedStep(stack: seq<Open>, final: seq<Event>)
    requires stack != [] && AllProper(stack)
    ensures var e := FirstEvent(stack[0].rest, stack[0].name);
      Copied(stack, final) ==
      (if stack[0].rest.Leaf? then Written(e, Formatting(stack[0].name)) else [e]) + Copied(After(stack), final)
  {
    hide Rest, Formatting, Dropped, Proper;
    var next, below := After(stack), stack[1..];
    RestStep(stack[0].rest, Formatting(stack[0].name), [End(stack[0].name)] + Copied(below, final));
    match stack[0].rest
    case Done =>
    case Elem(n, a, k, t) =>
      assert next[1..] == [Open(t, stack[0].name)] + below && next[1..][1..] == below;
    case Hollow(_, _, t) => assert next[1..] == below;
    case Leaf(_, t) => assert next[1..] == below;
  }

  // ----- walking the element and everything open below it

  function Upcoming(stack: seq<Open>, rest: Nodes, name: string): Event {
    if stack == [] then FirstEvent(rest, name) else FirstEvent(stack[0].rest, stack[0].name)
  }

  function Stack'(stack: seq<Open>, rest: Nodes): seq<Open> {
    if stack != [] then After(stack) else if rest.Elem? then [Open(rest.kids, rest.name)] else []
  }

  function Rest'(stack: seq<Open>, rest: Nodes): Nodes {
    if stack != [] || rest.Done? then rest else rest.next
  }

  ghost predicate Walking(stack: seq<Open>, rest: Nodes, name: string, tail: seq<Event>, unread: seq<Event>) {
    AllProper(stack) && Proper(rest) && unread == Unwind(stack, Ahead(rest, name, tail))
  }

  lemma WalkStep(stack: seq<Open>, rest: Nodes, name: string, tail: seq<Event>, unread: seq<Event>)
    requires Walking(stack, rest, name, tail, unread)
    ensures unread != [] && unread[0] == Upcoming(stack, rest, name)
    ensures stack == [] && rest.Done? ==> unread[1..] == tail
    ensures !(stack == [] && rest.Done?) ==> Walking(Stack'(stack, rest), Rest'(stack, rest), name, tail, unread[1..])
  {
    hide Ahead, Proper;
    if stack == [] {
      AheadStep(rest, name, tail);
      ProperNode(rest);
      if rest.Elem? {
        SkipStart(rest.name, rest.kids, Ahead(rest.next, name, tail));
      }
    } else {
      UnwindStep(stack, Ahead(rest, name, tail));
      CleanStep(stack);
    }
  }

  lemma WalkClean(stack: seq<Open>, rest: Nodes, name: string)
    requires AllProper(stack) && Proper(rest)
    ensures var e := Upcoming(stack, rest, name);
            AllClean(stack) && Clean(rest) <==>
            (Structural(e) || Allowed(e)) && AllClean(Stack'(stack, rest)) && Clean(Rest'(stack, rest))
  {
    hide Allowed;
    if stack == [] {
      if rest.Elem? { SkipStart(rest.name, rest.kids, []); }
    } else {
      CleanStep(stack);
    }
  }

  /** Depth and flags follow the open elements. */
  lemma WalkFlags(stack: seq<Open>, rest: Nodes, name: string)
    requires AllProper(stack) && Proper(rest)
    ensures var e, flags, stack' := Upcoming(stack, rest, name), Flags(stack), Stack'(stack, rest);
      && flags[|flags| - 1] == (stack == [] || Formatting(stack[0].name))
      && (e.Start? ==> |stack'| == |stack| + 1 && Flags(stack') == flags + [Formatting(e.name)])
      && (e.End? && stack != [] ==> |stack'| == |stack| - 1 && Flags(stack') == flags[..|flags| - 1])
      && (stack == [] ==> (e.End? <==> rest.Done?))
      && (!e.Start? && !e.End? ==> |stack'| == |stack| && Flags(stack') == flags)
  {
    hide Formatting;
    if stack == [] {
      if rest.Elem? {
        var open := [Open(rest.kids, rest.name)];
        assert open[1..] == [];
      }
    } else {
      FlagsStep(stack);
      LeafIsLeaf(stack);
    }
  }

  lemma ProperNode(rest: Nodes)
    requires Proper(rest)
    ensures rest.Elem? ==> Proper(rest.kids) && Proper(rest.next)
    ensures !rest.Done? ==> Proper(rest.next)
  {
  }

  lemma LeafOrNot(rest: Nodes, name: string)
    requires Proper(rest)
    ensures rest.Leaf? <==> !Structural(FirstEvent(rest, name))
  {
  }

  /** Of the outermost element: what is still to be written before and after its next node is read. */
  predicate OuterStep(rest: Nodes, final: seq<Event>, final': seq<Event>) {
    match rest
    case Done => true
    case Elem(n, a, k, _) => final == [Start(n, a)] + Remainder(k, n, final')
    case Hollow(n, a, _) => final == [Empty(n, a)] + final'
    case Leaf(e, _) => final == Written(e, true) + final'
  }

  /** The copier's loop: `output` is written, `final` is due from the outermost element. */
  ghost predicate Copying(kids: Nodes, name: string, tail: seq<Event>, goal: seq<Event>, final: seq<Event>,
                          depth: int, elements: seq<bool>, output: seq<Event>, unread: seq<Event>,
                          stack: seq<Open>, rest: Nodes)
  {
    && Walking(stack, rest, name, tail, unread)
    && depth == |stack| + 1 && elements == Flags(stack)
    && (Clean(kids) <==> AllClean(stack) && Clean(rest))
    && goal == output + Copied(stack, final)
  }

  lemma OutputStep(stack: seq<Open>, rest: Nodes, name: string, final: seq<Event>, final': seq<Event>)
    requires AllProper(stack) && Proper(rest)
    requires if stack == [] then OuterStep(rest, final, final') && !rest.Done? else final' == final
    ensures var e, flags := Upcoming(stack, rest, name), Flags(stack);
      Copied(stack, final) ==
      (if Structural(e) then [e] else Written(e, flags[|flags| - 1])) + Copied(Stack'(stack, rest), final')
  {
    hide Remainder, Formatting, Dropped;
    WalkFlags(stack, rest, name);
    if stack == [] {
      if rest.Elem? {
        var open := [Open(rest.kids, rest.name)];
        assert open[1..] == [];
      }
      LeafOrNot(rest, name);
    } else {
      CopiedStep(stack, final);
      LeafOrNot(stack[0].rest, stack[0].name);
    }
  }

  /** One event other than the outermost end tag. */
  lemma CopyingStep(kids: Nodes, name: string, tail: seq<Event>, goal: seq<Event>, final: seq<Event>,
                    final': seq<Event>, depth: int, elements: seq<bool>, output: seq<Event>, unread: seq<Event>,
                      stack: seq<Open>, rest: Nodes)
    requires Copying(kids, name, tail, goal, final, depth, elements, output, unread, stack, rest)
    requires if stack == [] then OuterStep(rest, final, final') && !rest.Done? else final' == final
    ensures unread != [] && elements != []
    ensures var e, n, stack', rest' := unread[0], |elements|, Stack'(stack, rest), Rest'(stack, rest);
      && (e.End? ==> depth > 1)
      && (!Structural(e) && !Allowed(e) ==> !Clean(kids))
      && (Structural(e) || Allowed(e) ==>
          Copying(kids, name, tail, goal, final',
                  if e.Start? then depth + 1 else if e.End? then depth - 1 else depth,
                  if e.Start? then elements + [Formatting(e.name)] else if e.End? then elements[..n - 1] else elements,
                  if Structural(e) || !Dropped(e, elements[n - 1]) then output + [e] else output,
                  unread[1..], stack', rest'))
  {
    hide Ahead, Proper, AllProper, Clean, AllClean, Allowed, Formatting, Dropped, OuterStep, Copied, Unwind,
      Flags, Stack', Rest', Upcoming;
    WalkStep(stack, rest, name, tail, unread);
    WalkClean(stack, rest, name);
    WalkFlags(stack, rest, name);
    OutputStep(stack, rest, name, final, final');
    var e := unread[0];
    var w := if Structural(e) then [e] else Written(e, elements[|elements| - 1]);
    assert output + [] == output;
    assert output + (w + Copied(Stack'(stack, rest), final')) == (output + w) + Copied(Stack'(stack, rest), final');
  }

  /** The outermost end tag. */
  lemma CopyingEnds(kids: Nodes, name: string, tail: seq<Event>, goal: seq<Event>, final: seq<Event>,
                    depth: int, elements: seq<bool>, output: seq<Event>, unread: seq<Event>,
                    stack: seq<Open>, rest: Nodes)
    requires Copying(kids, name, tail, goal, final, depth, elements, output, unread, stack, rest)
    requires stack == [] && rest.Done?
    ensures unread != [] && elements != [] && depth == 1
    ensures Clean(kids) && unread[0] == End(name) && unread[1..] == tail && goal == output + final
  {
    hide Ahead;
    WalkStep(stack, rest, name, tail, unread);
  }

  lemma CopyingStarts(kids: Nodes, name: string, tail: seq<Event>, goal: seq<Event>, unread: seq<Event>)
    requires Proper(kids) && unread == Ahead(kids, name, tail)
    ensures Copying(kids, name, tail, goal, goal, 1, [true], [], unread, [], kids)
  {
    hide Ahead;
    assert [] + goal == goal;
  }

  // ----- the container of the extended attributes

  /** What is written of an extended-attribute container, below its start tag. */
  function ContainerRest(rest: Nodes, name: string, barcode: string): seq<Event> {
    Rest(rest, true, XattrEvents(barcode) + [End(name)])
  }

  lemma ContainerStep(rest: Nodes, name: string, barcode: string)
    ensures rest.Done? ==> ContainerRest(rest, name, barcode) == XattrEvents(barcode) + [End(name)]
    ensures !rest.Done? ==>
      OuterStep(rest, ContainerRest(rest, name, barcode), ContainerRest(rest.next, name, barcode))
  {
    hide Rest, XattrEvents, Remainder, Written;
    RestStep(rest, true, XattrEvents(barcode) + [End(name)]);
  }

  /** Copy a container whose start tag is written, and put the barcode before its end tag. */
  method CopyContainer(reader: EventReader, barcode: string,
                       ghost name: string, ghost kids: Nodes, ghost tail: seq<Event>)
    returns (r: Option<seq<Event>>)
    requires Proper(kids) && reader.unread == Ahead(kids, name, tail)
    modifies reader
    ensures r == if Clean(kids) then Some(ContainerRest(kids, name, barcode)) else None
    ensures r.Some? ==> reader.unread == tail
  {
    hide Ahead, Proper, Clean, DecodeGeneralRef, Formatting, XmlWhitespace, ContainerRest, OuterStep, XattrEvents,
         Copying;
    var depth, elements, output := 1, [true], [];
    ghost var stack, rest := [], kids;
    ghost var goal := ContainerRest(kids, name, barcode);
    CopyingStarts(kids, name, tail, goal, reader.unread);
    while depth > 0
      invariant depth >= 0
      invariant depth > 0 ==> Copying(kids, name, tail, goal, ContainerRest(rest, name, barcode),
                                      depth, elements, output, reader.unread, stack, rest)
      invariant depth == 0 ==> Clean(kids) && reader.unread == tail && output == goal
      decreases |reader.unread|
    {
      ghost var final := ContainerRest(rest, name, barcode);
      ContainerStep(rest, name, barcode);
      if stack == [] && rest.Done? {
        CopyingEnds(kids, name, tail, goal, final, depth, elements, output, reader.unread, stack, rest);
      } else {
        CopyingStep(kids, name, tail, goal, final, ContainerRest(Rest'(stack, rest), name, barcode),
                    depth, elements, output, reader.unread, stack, rest);
      }
      var e := reader.Next();
      match e {
        case Start(n, _) =>
          elements := elements + [Formatting(n)];
          output := output + [e];
          depth := depth + 1;
        case Empty(_, _) => output := output + [e];
        case End(_) =>
          depth := depth - 1;
          if depth == 0 { output := output + XattrEvents(barcode); }
          output := output + [e];
          elements := elements[..|elements| - 1];
        case Text(text) =>
          if !(XmlWhitespace(text) && elements[|elements| - 1]) { output := output + [e]; }
        case CData(_) => output := output + [e];
        case Comment(_) =>
        case PI(_) =>
        case Decl => return None;
        case DocType => return None;
        case GeneralRef(text) =>
          if DecodeGeneralRef(text).None? { return None; }
          output := output + [e];
      }
      stack, rest := Stack'(stack, rest), Rest'(stack, rest);
    }
    return Some(output);
  }

  // ----- the record

  predicate IsContainer(rest: Nodes) { (rest.Elem? || rest.Hollow?) && rest.name == "extendedattributes" }

  /** What is written of a record, below its start tag, once `has` tells whether a container was seen. */
  function RecordRest(rest: Nodes, name: string, has: bool, barcode: string): seq<Event> {
    Flatten(Labelled(rest, barcode))
    + (if has || Children(rest, "extendedattributes") > 0 then [] else ContainerEvents(barcode)) + [End(name)]
  }

  lemma TaggedEvents(kids: Nodes, name: string, barcode: string)
    ensures Flatten(Tagged(kids, barcode)) == Flatten(kids) + XattrEvents(barcode)
  {
    FlattenSnoc(kids, "xattr", XattrContent(barcode));
    var text, value := Leaf(Text("Barcode"), Done), Elem("value", "", Leaf(Text(barcode), Done), Done);
    assert Flatten(text) == [Text("Barcode")] && Flatten(Leaf(Text(barcode), Done)) == [Text(barcode)];
    assert Flatten(value) == [Start("value", "")] + [Text(barcode)] + [End("value")];
    assert Flatten(XattrContent(barcode)) ==
           [Start("key", "")] + [Text("Barcode")] + [End("key")] + Flatten(value);
  }

  lemma LabelledStep(rest: Nodes, barcode: string)
    requires !rest.Done? && !IsContainer(rest)
    ensures Flatten(Labelled(rest, barcode)) ==
            (match rest
             case Elem(n, a, k, _) => [Start(n, a)] + Flatten(Stripped(k, Formatting(n))) + [End(n)]
             case Hollow(n, a, _) => [Empty(n, a)]
             case Leaf(e, _) => Written(e, true)
             case Done => []) + Flatten(Labelled(rest.next, barcode))
    ensures Children(rest, "extendedattributes") == Children(rest.next, "extendedattributes")
  {
    hide Tagged, Formatting, XmlWhitespace, Stripped;
    if rest.Leaf? && Dropped(rest.event, true) {
      assert [] + Flatten(Labelled(rest.next, barcode)) == Flatten(Labelled(rest.next, barcode));
    }
  }

  lemma Regroup(s: seq<Event>, f: seq<Event>, e: seq<Event>, x: seq<Event>, c: seq<Event>, end: seq<Event>)
    ensures (s + f + e + x) + c + end == s + (f + (e + (x + c + end)))
    ensures (s + x) + c + end == s + (x + c + end)
  {
  }

  lemma RecordEnd(rest: Nodes, name: string, has: bool, barcode: string)
    requires rest.Done?
    ensures RecordRest(rest, name, has, barcode) == (if has then [] else ContainerEvents(barcode)) + [End(name)]
  {
    hide ContainerEvents;
    assert Flatten(Labelled(rest, barcode)) == [];
  }

  lemma RecordStep(rest: Nodes, name: string, has: bool, barcode: string)
    requires !rest.Done? && !IsContainer(rest)
    ensures OuterStep(rest, RecordRest(rest, name, has, barcode), RecordRest(rest.next, name, has, barcode))
  {
    hide ContainerEvents, Formatting, Written, Stripped, Labelled, Flatten, Children;
    LabelledStep(rest, barcode);
    var x := Flatten(Labelled(rest.next, barcode));
    var c := if has || Children(rest, "extendedattributes") > 0 then [] else ContainerEvents(barcode);
    match rest
    case Elem(n, a, k, _) =>
      Regroup([Start(n, a)], Flatten(Stripped(k, Formatting(n))), [End(n)], x, c, [End(name)]);
    case Hollow(n, a, _) => Regroup([Empty(n, a)], [], [], x, c, [End(name)]);
    case Leaf(e, _) => Regroup(Written(e, true), [], [], x, c, [End(name)]);
  }

  function ContainerChild(rest: Nodes, barcode: string): seq<Event>
    requires IsContainer(rest)
  {
    [Start(rest.name, rest.attributes)]
    + if rest.Elem? then ContainerRest(rest.kids, rest.name, barcode) else XattrEvents(barcode) + [End(rest.name)]
  }

  lemma RecordContainer(rest: Nodes, name: string, has: bool, barcode: string)
    requires IsContainer(rest)
    ensures RecordRest(rest, name, has, barcode) ==
            ContainerChild(rest, barcode) + RecordRest(rest.next, name, true, barcode)
  {
    hide Tagged, XattrEvents, ContainerEvents, Formatting, XmlWhitespace, Stripped;
    var content := if rest.Elem? then Stripped(rest.kids, true) else Done;
    TaggedEvents(content, "extendedattributes", barcode);
    assert Flatten(Tagged(content, barcode)) + [End(rest.name)] ==
           if rest.Elem? then ContainerRest(rest.kids, rest.name, barcode) else XattrEvents(barcode) + [End(rest.name)];
  }

  /** One container among the record's children: `w` is written for it. */
  lemma CopyingChild(kids: Nodes, name: string, tail: seq<Event>, goal: seq<Event>, final: seq<Event>,
                     final': seq<Event>, depth: int, elements: seq<bool>, output: seq<Event>, unread: seq<Event>,
                       rest: Nodes, w: seq<Event>)
    requires Copying(kids, name, tail, goal, final, depth, elements, output, unread, [], rest)
    requires (rest.Elem? || rest.Hollow?) && final == w + final'
    ensures unread != [] && unread[0] == FirstEvent(rest, name) && depth == 1
    ensures |Ahead(rest.next, name, tail)| < |unread|
    ensures rest.Hollow? ==> unread[1..] == Ahead(rest.next, name, tail)
    ensures rest.Elem? ==>
      Proper(rest.kids) && unread[1..] == Ahead(rest.kids, rest.name, Ahead(rest.next, name, tail))
      && (Clean(kids) ==> Clean(rest.kids))
    ensures rest.Hollow? || Clean(rest.kids) ==>
      Copying(kids, name, tail, goal, final', depth, elements, output + w, Ahead(rest.next, name, tail), [], rest.next)
  {
    hide Ahead;
    AheadStep(rest, name, tail);
    if rest.Elem? { AheadLonger(rest.kids, rest.name, Ahead(rest.next, name, tail)); }
    ProperNode(rest);
    assert output + (w + final') == output + w + final';
  }

  lemma AheadLonger(rest: Nodes, name: string, tail: seq<Event>)
    ensures |tail| < |Ahead(rest, name, tail)|
  {
  }

  lemma CopyingDepth(kids: Nodes, name: string, tail: seq<Event>, goal: seq<Event>, final: seq<Event>,
                     depth: int, elements: seq<bool>, output: seq<Event>, unread: seq<Event>,
                     stack: seq<Open>, rest: Nodes)
    requires Copying(kids, name, tail, goal, final, depth, elements, output, unread, stack, rest)
    ensures depth == |stack| + 1 && unread != []
    ensures stack == [] ==> unread[0] == FirstEvent(rest, name)
    ensures stack == [] && rest.Leaf? ==> !Structural(rest.event)
  {
    hide Ahead;
    WalkStep(stack, rest, name, tail, unread);
  }

  lemma WholeRecord(kids: Nodes, name: string, a: string, barcode: string)
    ensures [Start(name, a)] + RecordRest(kids, name, false, barcode) ==
            Flatten(Elem(name, a, WithBarcode(kids, barcode), Done))
  {
    hide Labelled, XattrContent, XattrEvents;
    if Children(kids, "extendedattributes") == 0 {
      FlattenSnoc(Labelled(kids, barcode), "extendedattributes", Tagged(Done, barcode));
      TaggedEvents(Done, "extendedattributes", barcode);
    }
  }

  /** Copy a record whose start tag has been read; `None` when the record is refused. */
  method CopyRecord(reader: EventReader, start: Event, barcode: string,
                    ghost kids: Nodes, ghost tail: seq<Event>)
    returns (r: Option<seq<Event>>)
    requires start.Start? && Proper(kids) && reader.unread == Ahead(kids, start.name, tail)
    modifies reader
    ensures r == if Clean(kids)
                 then Some(Flatten(Elem(start.name, start.attributes, WithBarcode(kids, barcode), Done))) else None
    ensures r.Some? ==> reader.unread == tail
  {
    hide Ahead, Proper, Clean, DecodeGeneralRef, Formatting, XmlWhitespace, ContainerRest, OuterStep, XattrEvents,
      ContainerEvents, RecordRest, WithBarcode, Copying;
    var output, depth, elements, has := [start], 1, [true], false;
    ghost var name, stack, rest := start.name, [], kids;
    ghost var goal := RecordRest(kids, name, false, barcode);
    CopyingStarts(kids, name, tail, goal, reader.unread);
    CopyingPrefix(kids, name, tail, goal, start, reader.unread);
    while depth > 0
      invariant depth >= 0
      invariant depth > 0 ==> Copying(kids, name, tail, [start] + goal, RecordRest(rest, name, has, barcode),
                                      depth, elements, output, reader.unread, stack, rest)
      invariant depth == 0 ==> Clean(kids) && reader.unread == tail && output == [start] + goal
      decreases |reader.unread|
    {
      ghost var unread := reader.unread;
      ghost var final := RecordRest(rest, name, has, barcode);
      ghost var outer := stack == [] && IsContainer(rest);
      CopyingDepth(kids, name, tail, [start] + goal, final, depth, elements, output, unread, stack, rest);
      if outer {
        RecordContainer(rest, name, has, barcode);
        CopyingChild(kids, name, tail, [start] + goal, final, RecordRest(rest.next, name, true, barcode),
                     depth, elements, output, unread, rest, ContainerChild(rest, barcode));
      } else if stack == [] && rest.Done? {
        RecordEnd(rest, name, has, barcode);
        CopyingEnds(kids, name, tail, [start] + goal, final, depth, elements, output, unread, stack, rest);
      } else {
        if stack == [] { RecordStep(rest, name, has, barcode); }
        CopyingStep(kids, name, tail, [start] + goal, final, RecordRest(Rest'(stack, rest), name, has, barcode),
                    depth, elements, output, unread, stack, rest);
      }
      ghost var before := output;
      var e := reader.Next();
      match e {
        case Start(n, _) =>
          if depth == 1 && n == "extendedattributes" {
            has := true;
            output := output + [e];
            var container := CopyContainer(reader, barcode, n, rest.kids, Ahead(rest.next, name, tail));
            match container {
              case None => return None;
              case Some(w) =>
                output := output + w;
                assert output == before + ([e] + w);
            }
          } else {
            elements := elements + [Formatting(n)];
            output := output + [e];
            depth := depth + 1;
          }
        case Empty(n, a) =>
          if depth == 1 && n == "extendedattributes" {
            has := true;
            output := output + [Start(n, a)];
            output := output + XattrEvents(barcode);
            output := output + [End(n)];
            assert output == before + ([Start(n, a)] + (XattrEvents(barcode) + [End(n)]));
          } else {
            output := output + [e];
          }
        case End(_) =>
          depth := depth - 1;
          if depth == 0 && !has { output := output + ContainerEvents(barcode); }
          output := output + [e];
          elements := elements[..|elements| - 1];
        case Text(text) =>
          if !(XmlWhitespace(text) && elements[|elements| - 1]) { output := output + [e]; }
        case CData(_) => output := output + [e];
        case Comment(_) =>
        case PI(_) =>
        case Decl => return None;
        case DocType => return None;
        case GeneralRef(text) =>
          if DecodeGeneralRef(text).None? { return None; }
          output := output + [e];
      }
      if outer { rest := rest.next; } else { stack, rest := Stack'(stack, rest), Rest'(stack, rest); }
    }
    WholeRecord(kids, name, start.attributes, barcode);
    return Some(output);
  }

  lemma CopyingPrefix(kids: Nodes, name: string, tail: seq<Event>, goal: seq<Event>, start: Event, unread: seq<Event>)
    requires Copying(kids, name, tail, goal, goal, 1, [true], [], unread, [], kids)
    ensures Copying(kids, name, tail, [start] + goal, goal, 1, [true], [start], unread, [], kids)
  {
  }
}
