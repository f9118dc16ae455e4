/** Giving a file record a new UID while the record is copied event by event. */
module RecordUid {
  import opened Common
  import opened XmlEvents

  // ----- decimal numbers, as written and as parsed

  function DigitChar(d: nat): (c: char)
    requires d < 10
    ensures HexValue(c) == Some(d)
  {
    ('0' as int + d) as char
  }

  function NatToString(n: nat): (s: string)
    ensures s != [] && Digits(s, 10) == Some(n)
    ensures s[0] != '+' && s[0] != '-'
    ensures forall i :: 0 <= i < |s| ==> '0' <= s[i] <= '9'
  {
    if n < 10 then [DigitChar(n)] else NatToString(n / 10) + [DigitChar(n % 10)]
  }

  function IntToString(n: int): string {
    if n < 0 then "-" + NatToString(-n) else NatToString(n)
  }

  const I64_MIN: int := -0x8000_0000_0000_0000
  const I64_MAX: int := 0x7FFF_FFFF_FFFF_FFFF

  /** Rust's signed 64-bit parse. */
  function ParseI64(s: string): Option<int> {
    var negative := s != [] && s[0] == '-';
    var body := if s != [] && (s[0] == '-' || s[0] == '+') then s[1..] else s;
    if body == [] then None
    else match Digits(body, 10)
      case None => None
      case Some(v) =>
        var n: int := if negative then -(v as int) else v;
        if I64_MIN <= n <= I64_MAX then Some(n) else None
  }

  predicate IsSpace(c: char) {
    var v := c as int;
    9 <= v <= 13 || v == 32 || v == 0x85 || v == 0xA0 || v == 0x1680 || 0x2000 <= v <= 0x200A
    || v == 0x2028 || v == 0x2029 || v == 0x202F || v == 0x205F || v == 0x3000
  }

  function TrimStart(s: string): string {
    if s != [] && IsSpace(s[0]) then TrimStart(s[1..]) else s
  }

  function TrimEnd(s: string): string {
    if s != [] && IsSpace(s[|s| - 1]) then TrimEnd(s[..|s| - 1]) else s
  }

  function Trim(s: string): string { TrimEnd(TrimStart(s)) }

  /** The number an element's text stands for; zero when it is not a number. */
  function ParsedNumber(text: string): int {
    match ParseI64(Trim(text))
    case None => 0
    case Some(v) => v
  }

  lemma PrintedNumberParses(n: int)
    requires I64_MIN <= n <= I64_MAX
    ensures ParsedNumber(IntToString(n)) == n
  {
    var s := IntToString(n);
    if n < 0 {
      var body := NatToString(-n);
      assert s[1..] == body;
    }
  }

  // ----- the copying machine

  datatype CopyState = CopyState(
    depth: nat, rootSeen: bool, rootClosed: bool, uidFound: bool, replacing: Option<nat>)

  const CopyStart := CopyState(0, false, false, false, None)

  function UidElement(uid: int): seq<Event> {
    [Start("fileuid", ""), Text(IntToString(uid)), End("fileuid")]
  }

  /** One event: the next state and what is written, or `None` for a refused record. */
  function CopyStep(s: CopyState, e: Event, uid: int): Option<(CopyState, seq<Event>)> {
    match e
    case Start(name, a) =>
      if s.replacing.Some? then Some((s.(depth := s.depth + 1), []))
      else if s.depth == 0 && (s.rootSeen || name != "file") then None
      else
        var s' := s.(depth := s.depth + 1, rootSeen := true);
        if s'.depth == 2 && name == "fileuid" && !s.uidFound
        then Some((s'.(replacing := Some(s'.depth)), [e]))
        else Some((s', [e]))
    case Empty(name, a) =>
      if s.replacing.Some? then Some((s, []))
      else if s.depth == 0 then
        if s.rootSeen || name != "file" then None
        else Some((s.(rootSeen := true, uidFound := true, rootClosed := true),
                   [Start(name, a)] + UidElement(uid) + [End("file")]))
      else if s.depth == 1 && name == "fileuid" && !s.uidFound then
        Some((s.(uidFound := true), [Start(name, a), Text(IntToString(uid)), End("fileuid")]))
      else Some((s, [e]))
    case End(name) =>
      if s.replacing.Some? then
        var closes := s.depth == s.replacing.value && name == "fileuid";
        if s.depth == 0 then None
        else if closes then
          Some((s.(uidFound := true, replacing := None, depth := s.depth - 1), [Text(IntToString(uid)), e]))
        else Some((s.(depth := s.depth - 1), []))
      else if s.depth == 0 then None
      else if s.depth == 1 && name == "file" then
        Some((s.(uidFound := true, depth := 0, rootClosed := true),
              (if s.uidFound then [] else UidElement(uid)) + [e]))
      else Some((s.(depth := s.depth - 1), [e]))
    case Decl => None
    case DocType => None
    case GeneralRef(text) =>
      if DecodeGeneralRef(text).None? then None
      else Some((s, if s.replacing.Some? then [] else [e]))
    case _ => Some((s, if s.replacing.Some? then [] else [e]))
  }

  function Copy(s: CopyState, events: seq<Event>, uid: int): Option<(CopyState, seq<Event>)>
    decreases |events|
  {
    if events == [] then Some((s, []))
    else match CopyStep(s, events[0], uid)
      case None => None
      case Some((s', out)) =>
        match Copy(s', events[1..], uid)
        case None => None
        case Some((s'', rest)) => Some((s'', out + rest))
  }

  predicate CopyComplete(s: CopyState) {
    s.rootSeen && s.rootClosed && s.depth == 0 && s.replacing.None?
  }

  /** The rewritten record; `None` when the record is refused. */
  function Rewritten(events: seq<Event>, uid: int): Option<seq<Event>> {
    match Copy(CopyStart, events, uid)
    case Some((s, out)) => if CopyComplete(s) then Some(out) else None
    case None => None
  }

  method RewriteFileRecordUid(events: seq<Event>, uid: int) returns (r: Option<seq<Event>>)
    ensures r == Rewritten(events, uid)
  {
    var state := CopyStart;
    var output: seq<Event> := [];
    var i := 0;
    assert events[0..] == events;
    if Copy(state, events, uid).Some? {
      assert [] + Copy(state, events, uid).value.1 == Copy(state, events, uid).value.1;
    }
    while i < |events|
      invariant 0 <= i <= |events|
      invariant Copy(CopyStart, events, uid) ==
                match Copy(state, events[i..], uid)
                case None => None
                case Some((s, rest)) => Some((s, output + rest))
    {
      assert events[i..][1..] == events[i + 1..];
      match CopyStep(state, events[i], uid) {
        case None => return None;
        case Some((state', written)) =>
          ghost var rest := Copy(state', events[i + 1..], uid);
          if rest.Some? {
            assert output + (written + rest.value.1) == output + written + rest.value.1;
          }
          state, output := state', output + written;
      }
      i := i + 1;
    }
    assert events[i..] == [];
    assert output + [] == output;
    return if CopyComplete(state) then Some(output) else None;
  }

  // ----- what the machine does to the record's tree

  /** Replace the content of the first `fileuid` child; nothing else changes. */
  function ReplaceUid(kids: Nodes, uid: int): Nodes {
    match kids
    case Done => Done
    case Elem(n, a, k, t) =>
      if n == "fileuid" then Elem(n, a, Leaf(Text(IntToString(uid)), Done), t)
      else Elem(n, a, k, ReplaceUid(t, uid))
    case Hollow(n, a, t) =>
      if n == "fileuid" then Elem(n, a, Leaf(Text(IntToString(uid)), Done), t)
      else Hollow(n, a, ReplaceUid(t, uid))
    case Leaf(e, t) => Leaf(e, ReplaceUid(t, uid))
  }

  predicate HasUid(kids: Nodes) {
    match kids
    case Done => false
    case Elem(n, _, _, t) => n == "fileuid" || HasUid(t)
    case Hollow(n, _, t) => n == "fileuid" || HasUid(t)
    case Leaf(_, t) => HasUid(t)
  }

  function Snoc(kids: Nodes, name: string, content: Nodes): Nodes {
    match kids
    case Done => Elem(name, "", content, Done)
    case Elem(n, a, k, t) => Elem(n, a, k, Snoc(t, name, content))
    case Hollow(n, a, t) => Hollow(n, a, Snoc(t, name, content))
    case Leaf(e, t) => Leaf(e, Snoc(t, name, content))
  }

  /** The record's children afterwards: the UID element replaced, or appended if there was none. */
  function WithUid(kids: Nodes, uid: int): Nodes {
    if HasUid(kids) then ReplaceUid(kids, uid)
    else Snoc(kids, "fileuid", Leaf(Text(IntToString(uid)), Done))
  }

  lemma {:induction false} CopyAppend(s: CopyState, a: seq<Event>, b: seq<Event>, uid: int)
    ensures Copy(s, a + b, uid) ==
            match Copy(s, a, uid)
            case None => None
            case Some((s1, x)) =>
              match Copy(s1, b, uid)
              case None => None
              case Some((s2, y)) => Some((s2, x + y))
    decreases |a|
  {
    hide DecodeGeneralRef, IntToString, NatToString, Digits;
    if a == [] {
      assert a + b == b;
      if Copy(s, b, uid).Some? {
        assert [] + Copy(s, b, uid).value.1 == Copy(s, b, uid).value.1;
      }
    } else {
      assert (a + b)[1..] == a[1..] + b;
      match CopyStep(s, a[0], uid)
      case None =>
      case Some((s', out)) =>
        CopyAppend(s', a[1..], b, uid);
        match Copy(s', a[1..], uid)
        case None =>
        case Some((s1, x)) =>
          match Copy(s1, b, uid)
          case None =>
          case Some((s2, y)) => assert out + (x + y) == (out + x) + y;
    }
  }

  lemma CopyOne(s: CopyState, e: Event, uid: int)
    ensures Copy(s, [e], uid) ==
            match CopyStep(s, e, uid) case None => None case Some((s', out)) => Some((s', out))
  {
    hide DecodeGeneralRef, IntToString, NatToString, Digits;
    match CopyStep(s, e, uid)
    case None =>
    case Some((s', out)) => assert out + [] == out && [e][1..] == [];
  }

  /** Flatten of an element, cut at the points the machine changes state. */
  lemma CopyElem(s: CopyState, name: string, a: string, k: Nodes, t: Nodes, uid: int)
    ensures Copy(s, Flatten(Elem(name, a, k, t)), uid) ==
            match CopyStep(s, Start(name, a), uid)
            case None => None
            case Some((s1, x1)) =>
              match Copy(s1, Flatten(k), uid)
              case None => None
              case Some((s2, x2)) =>
                match CopyStep(s2, End(name), uid)
                case None => None
                case Some((s3, x3)) =>
                  match Copy(s3, Flatten(t), uid)
                  case None => None
                  case Some((s4, x4)) => Some((s4, x1 + x2 + x3 + x4))
  {
    hide DecodeGeneralRef, IntToString, NatToString, Digits;
    var p0, p1, p2, p3 := [Start(name, a)], Flatten(k), [End(name)], Flatten(t);
    CopyAppend(s, p0 + p1 + p2, p3, uid);
    CopyAppend(s, p0 + p1, p2, uid);
    CopyAppend(s, p0, p1, uid);
    CopyOne(s, Start(name, a), uid);
    if CopyStep(s, Start(name, a), uid).Some? {
      var s1 := CopyStep(s, Start(name, a), uid).value.0;
      if Copy(s1, p1, uid).Some? {
        CopyOne(Copy(s1, p1, uid).value.0, End(name), uid);
      }
    }
  }

  /** While the old UID is being dropped, its whole content is consumed and nothing is written. */
  lemma {:induction false} CopyDropped(s: CopyState, n: Nodes, uid: int)
    requires Proper(n) && s.replacing.Some? && s.replacing.value <= s.depth
    ensures Copy(s, Flatten(n), uid) == if Clean(n) then Some((s, [])) else None
    decreases n
  {
    hide DecodeGeneralRef, IntToString, NatToString, Digits;
    var none: seq<Event> := [];
    assert none + none == none;
    match n
    case Done =>
    case Elem(name, a, k, t) =>
      var s1 := s.(depth := s.depth + 1);
      assert CopyStep(s, Start(name, a), uid) == Some((s1, none));
      assert CopyStep(s1, End(name), uid) == Some((s, none));
      assert Clean(n) <==> Clean(k) && Clean(t);
      CopyElem(s, name, a, k, t, uid);
      CopyDropped(s1, k, uid);
      CopyDropped(s, t, uid);
      hide *;
    case Hollow(name, a, t) =>
      assert CopyStep(s, Empty(name, a), uid) == Some((s, none));
      CopyDropped(s, t, uid);
      assert Flatten(n)[1..] == Flatten(t);
      hide CopyStep;
    case Leaf(e, t) =>
      assert CopyStep(s, e, uid) == if Allowed(e) then Some((s, none)) else None;
      CopyDropped(s, t, uid);
      assert Flatten(n)[1..] == Flatten(t);
      hide CopyStep;
  }

  /** Below the record's own children everything is copied verbatim. */
  lemma {:induction false} CopyDeep(s: CopyState, n: Nodes, uid: int)
    requires Proper(n) && s.replacing.None? && s.rootSeen && s.depth >= 1
    requires s.depth >= 2 || s.uidFound || !HasUid(n)
    ensures Copy(s, Flatten(n), uid) == if Clean(n) then Some((s, Flatten(n))) else None
    decreases n
  {
    hide DecodeGeneralRef, IntToString, NatToString, Digits;
    match n
    case Done =>
    case Elem(name, a, k, t) =>
      var s1 := s.(depth := s.depth + 1);
      assert CopyStep(s, Start(name, a), uid) == Some((s1, [Start(name, a)]));
      assert CopyStep(s1, End(name), uid) == Some((s, [End(name)]));
      assert Clean(n) <==> Clean(k) && Clean(t);
      assert Flatten(n) == [Start(name, a)] + Flatten(k) + [End(name)] + Flatten(t);
      CopyElem(s, name, a, k, t, uid);
      CopyDeep(s1, k, uid);
      CopyDeep(s, t, uid);
      hide *;
    case Hollow(name, a, t) =>
      assert CopyStep(s, Empty(name, a), uid) == Some((s, [Empty(name, a)]));
      CopyDeep(s, t, uid);
      assert Flatten(n)[1..] == Flatten(t);
      hide CopyStep;
    case Leaf(e, t) =>
      assert CopyStep(s, e, uid) == if Allowed(e) then Some((s, [e])) else None;
      CopyDeep(s, t, uid);
      assert Flatten(n)[1..] == Flatten(t);
      hide CopyStep;
  }

  /** Among the record's children the first UID element gets the new number. */
  lemma {:induction false} CopyKids(s: CopyState, n: Nodes, uid: int)
    requires Proper(n) && s.replacing.None? && s.rootSeen && s.depth == 1 && !s.uidFound
    ensures Copy(s, Flatten(n), uid) ==
            if Clean(n) then Some((s.(uidFound := HasUid(n)), Flatten(ReplaceUid(n, uid)))) else None
    decreases n
  {
    hide DecodeGeneralRef, IntToString, NatToString, Digits;
    match n
    case Done =>
    case Elem(name, a, k, t) =>
      CopyElem(s, name, a, k, t, uid);
      if name == "fileuid" {
        CopyDropped(s.(depth := 2, replacing := Some(2)), k, uid);
        CopyDeep(s.(uidFound := true), t, uid);
        assert Flatten(Leaf(Text(IntToString(uid)), Done)) == [Text(IntToString(uid))];
        assert [Start(name, a)] + [] + [Text(IntToString(uid)), End(name)] ==
               [Start(name, a)] + [Text(IntToString(uid))] + [End(name)];
      } else {
        CopyDeep(s.(depth := 2), k, uid);
        CopyKids(s, t, uid);
      }
    case Hollow(name, a, t) =>
      assert Flatten(n)[1..] == Flatten(t);
      if name == "fileuid" {
        CopyDeep(s.(uidFound := true), t, uid);
        assert Flatten(Leaf(Text(IntToString(uid)), Done)) == [Text(IntToString(uid))];
        assert [Start(name, a), Text(IntToString(uid)), End(name)] ==
               [Start(name, a)] + [Text(IntToString(uid))] + [End(name)];
      } else {
        CopyKids(s, t, uid);
      }
    case Leaf(_, t) =>
      CopyKids(s, t, uid);
      assert Flatten(n)[1..] == Flatten(t);
  }

  lemma {:induction false} FlattenSnoc(kids: Nodes, name: string, content: Nodes)
    ensures Flatten(Snoc(kids, name, content)) ==
            Flatten(kids) + [Start(name, "")] + Flatten(content) + [End(name)]
  {
    hide DecodeGeneralRef, IntToString, NatToString, Digits;
    match kids
    case Done =>
      assert Flatten(Elem(name, "", content, Done)) == [Start(name, "")] + Flatten(content) + [End(name)]
             + Flatten(Done);
    case Elem(n, a, k, t) =>
      FlattenSnoc(t, name, content);
      assert Flatten(Snoc(kids, name, content)) == [Start(n, a)] + Flatten(k) + [End(n)]
             + Flatten(Snoc(t, name, content));
    case Hollow(_, _, t) => FlattenSnoc(t, name, content);
    case Leaf(_, t) => FlattenSnoc(t, name, content);
  }

  lemma CopyRoot(a: string, found: bool, uid: int)
    ensures CopyStep(CopyStart, Start("file", a), uid) ==
            Some((CopyState(1, true, false, false, None), [Start("file", a)]))
    ensures CopyStep(CopyState(1, true, false, found, None), End("file"), uid) ==
            Some((CopyState(0, true, true, true, None), (if found then [] else UidElement(uid)) + [End("file")]))
  {
    hide UidElement;
  }

  lemma UidAppended(kids: Nodes, uid: int)
    requires !HasUid(kids)
    ensures ReplaceUid(kids, uid) == kids && Flatten(WithUid(kids, uid)) == Flatten(kids) + UidElement(uid)
  {
    hide IntToString;
    NoUid(kids, uid);
    FlattenSnoc(kids, "fileuid", Leaf(Text(IntToString(uid)), Done));
    assert Flatten(Leaf(Text(IntToString(uid)), Done)) == [Text(IntToString(uid))];
  }

  /** The event machine computes the tree edit, and refuses exactly the unclean records. */
  lemma RewriteIsTreeEdit(a: string, kids: Nodes, uid: int)
    requires Proper(kids)
    ensures Rewritten(Flatten(Elem("file", a, kids, Done)), uid) ==
            if Clean(kids) then Some(Flatten(Elem("file", a, WithUid(kids, uid), Done))) else None
  {
    hide CopyStep, UidElement, Proper, Clean, HasUid, ReplaceUid, Flatten, WithUid;
    CopyElem(CopyStart, "file", a, kids, Done, uid);
    CopyRoot(a, HasUid(kids), uid);
    CopyKids(CopyState(1, true, false, false, None), kids, uid);
    RootEvents(a, kids, uid);
  }

  /** The edited record's events, in the pieces the machine writes. */
  lemma RootEvents(a: string, kids: Nodes, uid: int)
    ensures Flatten(Done) == []
    ensures [Start("file", a)] + Flatten(ReplaceUid(kids, uid))
            + ((if HasUid(kids) then [] else UidElement(uid)) + [End("file")]) + []
            == Flatten(Elem("file", a, WithUid(kids, uid), Done))
  {
    hide UidElement, HasUid, ReplaceUid;
    if HasUid(kids) {
      assert [] + [End("file")] == [End("file")];
    } else {
      UidAppended(kids, uid);
    }
  }

  lemma {:induction false} NoUid(kids: Nodes, uid: int)
    requires !HasUid(kids)
    ensures ReplaceUid(kids, uid) == kids
  {
    match kids
    case Done =>
    case Elem(_, _, _, t) => NoUid(t, uid);
    case Hollow(_, _, t) => NoUid(t, uid);
    case Leaf(_, t) => NoUid(t, uid);
  }

  /** A childless record element becomes one with just a UID. */
  lemma RewriteHollow(a: string, uid: int)
    ensures Rewritten(Flatten(Hollow("file", a, Done)), uid) ==
            Some(Flatten(Elem("file", a, WithUid(Done, uid), Done)))
  {
    hide DecodeGeneralRef, IntToString, NatToString, Digits;
    var e := Empty("file", a);
    assert Flatten(Hollow("file", a, Done)) == [e];
    CopyOne(CopyStart, e, uid);
    assert Flatten(Leaf(Text(IntToString(uid)), Done)) == [Text(IntToString(uid))];
    assert Flatten(WithUid(Done, uid)) == UidElement(uid);
  }

  // ----- rewriting again

  /** Where a second machine stands that reads what the first one writes: while the first drops an
      old UID, the second has just entered that element. */
  predicate Follows(s: CopyState, t: CopyState) {
    && (s.depth > 0 || s.replacing.Some? || s.uidFound ==> s.rootSeen)
    && (if s.replacing.None? then t == s else s.replacing == Some(2) && !s.uidFound && t == s.(depth := 2))
  }

  /** Two or three events one after another. */
  lemma CopyTwo(s: CopyState, d: Event, e: Event, uid: int)
    ensures Copy(s, [d, e], uid) ==
            match CopyStep(s, d, uid)
            case None => None
            case Some((s1, x)) =>
              match CopyStep(s1, e, uid) case None => None case Some((s2, y)) => Some((s2, x + y))
  {
    hide CopyStep;
    CopyAppend(s, [d], [e], uid);
    assert [d] + [e] == [d, e];
    CopyOne(s, d, uid);
    if CopyStep(s, d, uid).Some? { CopyOne(CopyStep(s, d, uid).value.0, e, uid); }
  }

  /** A UID element read again is replaced by the new one. */
  lemma CopyUidElement(s: CopyState, e: Event, u: int, v: int)
    requires s.replacing.None? && s.depth == 1 && s.rootSeen && !s.uidFound
    requires e.Start? && e.name == "fileuid"
    ensures Copy(s, [e, Text(IntToString(u)), End("fileuid")], v) ==
            Some((s.(uidFound := true), [e, Text(IntToString(v)), End("fileuid")]))
  {
    hide IntToString;
    var inside := s.(depth := 2, replacing := Some(2));
    assert CopyStep(s, e, v) == Some((inside, [e]));
    CopyInside(s, u, v);
    CopyAppend(s, [e], [Text(IntToString(u)), End("fileuid")], v);
    CopyOne(s, e, v);
    assert [e] + [Text(IntToString(u)), End("fileuid")] == [e, Text(IntToString(u)), End("fileuid")];
    assert [e] + [Text(IntToString(v)), End("fileuid")] == [e, Text(IntToString(v)), End("fileuid")];
  }

  lemma CopyInside(s: CopyState, u: int, v: int)
    requires s.replacing.None? && s.depth == 1 && s.rootSeen && !s.uidFound
    ensures Copy(s.(depth := 2, replacing := Some(2)), [Text(IntToString(u)), End("fileuid")], v) ==
            Some((s.(uidFound := true), [Text(IntToString(v)), End("fileuid")]))
  {
    hide IntToString;
    var t := s.(depth := 2, replacing := Some(2));
    assert CopyStep(t, Text(IntToString(u)), v) == Some((t, []));
    assert CopyStep(t, End("fileuid"), v) == Some((s.(uidFound := true), [Text(IntToString(v)), End("fileuid")]));
    CopyTwo(t, Text(IntToString(u)), End("fileuid"), v);
    assert [] + [Text(IntToString(v)), End("fileuid")] == [Text(IntToString(v)), End("fileuid")];
  }

  /** One event through both machines. */
  lemma FollowStep(s: CopyState, t: CopyState, e: Event, u: int, v: int)
    requires Follows(s, t) && CopyStep(s, e, u).Some?
    ensures CopyStep(s, e, v).Some? && CopyStep(s, e, v).value.0 == CopyStep(s, e, u).value.0
    ensures var s' := CopyStep(s, e, u).value.0;
      Copy(t, CopyStep(s, e, u).value.1, v).Some?
      && Follows(s', Copy(t, CopyStep(s, e, u).value.1, v).value.0)
      && Copy(t, CopyStep(s, e, u).value.1, v).value.1 == CopyStep(s, e, v).value.1
  {
    hide IntToString, DecodeGeneralRef, UidElement;
    var out := CopyStep(s, e, u).value.1;
    match e
    case Empty(name, a) =>
      if s.replacing.None? && s.depth == 0 {
        FollowRoot(s, name, a, u, v);
      } else if s.replacing.None? && s.depth == 1 && name == "fileuid" && !s.uidFound {
        CopyUidElement(s, Start(name, a), u, v);
      } else if out != [] {
        CopyOne(t, e, v);
      }
    case End(name) =>
      if s.replacing.Some? {
        if out != [] { CopyInside(s.(depth := 1, replacing := None), u, v); }
      } else if s.depth == 1 && name == "file" && !s.uidFound {
        FollowEnd(s, u, v);
      } else {
        CopyOne(t, e, v);
        assert [] + [e] == [e];
      }
    case _ =>
      if out != [] { CopyOne(t, e, v); }
  }

  lemma FollowEnd(s: CopyState, u: int, v: int)
    requires s.replacing.None? && s.depth == 1 && s.rootSeen && !s.uidFound
    ensures Copy(s, UidElement(u) + [End("file")], v) ==
            Some((s.(uidFound := true, depth := 0, rootClosed := true), UidElement(v) + [End("file")]))
  {
    hide IntToString;
    CopyUidElement(s, Start("fileuid", ""), u, v);
    var found := s.(uidFound := true);
    CopyAppend(s, UidElement(u), [End("file")], v);
    CopyOne(found, End("file"), v);
    assert CopyStep(found, End("file"), v) ==
           Some((s.(uidFound := true, depth := 0, rootClosed := true), [] + [End("file")]));
    assert [] + [End("file")] == [End("file")];
  }

  lemma FollowRoot(s: CopyState, name: string, a: string, u: int, v: int)
    requires s.replacing.None? && s.depth == 0 && !s.rootSeen && name == "file" && !s.uidFound
    ensures Copy(s, [Start(name, a)] + UidElement(u) + [End("file")], v) ==
            Some((s.(rootSeen := true, uidFound := true, rootClosed := true),
                  [Start(name, a)] + UidElement(v) + [End("file")]))
  {
    hide UidElement;
    var inside := s.(depth := 1, rootSeen := true);
    assert CopyStep(s, Start(name, a), v) == Some((inside, [Start(name, a)]));
    FollowEnd(inside, u, v);
    CopyAppend(s, [Start(name, a)], UidElement(u) + [End("file")], v);
    CopyOne(s, Start(name, a), v);
    assert [Start(name, a)] + (UidElement(u) + [End("file")]) == [Start(name, a)] + UidElement(u) + [End("file")];
    assert [Start(name, a)] + (UidElement(v) + [End("file")]) == [Start(name, a)] + UidElement(v) + [End("file")];
  }

  lemma {:induction false} FollowAll(s: CopyState, t: CopyState, events: seq<Event>, u: int, v: int)
    requires Follows(s, t) && Copy(s, events, u).Some?
    ensures Copy(s, events, v).Some? && Copy(s, events, v).value.0 == Copy(s, events, u).value.0
    ensures Copy(t, Copy(s, events, u).value.1, v).Some?
    ensures Follows(Copy(s, events, u).value.0, Copy(t, Copy(s, events, u).value.1, v).value.0)
    ensures Copy(t, Copy(s, events, u).value.1, v).value.1 == Copy(s, events, v).value.1
    decreases |events|
  {
    hide CopyStep, Follows;
    if events != [] {
      FollowStep(s, t, events[0], u, v);
      var (s', out) := CopyStep(s, events[0], u).value;
      var (t', _) := Copy(t, out, v).value;
      FollowAll(s', t', events[1..], u, v);
      CopyAppend(t, out, Copy(s', events[1..], u).value.1, v);
    }
  }

  /** Rewriting a rewritten record is rewriting the original: of a UID given before nothing is left,
      and everything else is as it was. */
  lemma RewriteTwice(record: seq<Event>, u: int, v: int)
    requires Rewritten(record, u).Some?
    ensures Rewritten(Rewritten(record, u).value, v) == Rewritten(record, v)
  {
    hide CopyStep, Copy;
    FollowAll(CopyStart, CopyStart, record, u, v);
  }

  // ----- reading the record back

  /** Text of an element: its own text, character data and references; nested elements are skipped. */
  function TextOf(kids: Nodes): string {
    match kids
    case Done => ""
    case Elem(_, _, _, t) => TextOf(t)
    case Hollow(_, _, t) => TextOf(t)
    case Leaf(e, t) =>
      (match e
       case Text(x) => x
       case CData(x) => x
       case GeneralRef(x) => (match DecodeGeneralRef(x) case None => "" case Some(y) => y)
       case _ => "") + TextOf(t)
  }

  /** The UID the full parser reports: every `fileuid` child with content overwrites the previous one. */
  function ParsedUid(kids: Nodes, before: int): int {
    match kids
    case Done => before
    case Elem(n, _, k, t) => ParsedUid(t, if n == "fileuid" then ParsedNumber(TextOf(k)) else before)
    case Hollow(_, _, t) => ParsedUid(t, before)
    case Leaf(_, t) => ParsedUid(t, before)
  }

  /** Everything in the record that is not a UID element. */
  function OtherChildren(kids: Nodes): Nodes {
    match kids
    case Done => Done
    case Elem(n, a, k, t) => if n == "fileuid" then OtherChildren(t) else Elem(n, a, k, OtherChildren(t))
    case Hollow(n, a, t) => if n == "fileuid" then OtherChildren(t) else Hollow(n, a, OtherChildren(t))
    case Leaf(e, t) => Leaf(e, OtherChildren(t))
  }

  /** A `fileuid` element with content stands after the first `fileuid` child. */
  predicate LaterUid(kids: Nodes) {
    match kids
    case Done => false
    case Elem(n, _, _, t) => if n == "fileuid" then ContentUid(t) else LaterUid(t)
    case Hollow(n, _, t) => if n == "fileuid" then ContentUid(t) else LaterUid(t)
    case Leaf(_, t) => LaterUid(t)
  }

  predicate ContentUid(kids: Nodes) {
    match kids
    case Done => false
    case Elem(n, _, _, t) => n == "fileuid" || ContentUid(t)
    case Hollow(_, _, t) => ContentUid(t)
    case Leaf(_, t) => ContentUid(t)
  }

  lemma {:induction false} OtherChildrenKept(kids: Nodes, uid: int)
    ensures OtherChildren(WithUid(kids, uid)) == OtherChildren(kids)
  {
    match kids
    case Done =>
    case Elem(n, _, _, t) => if n != "fileuid" { OtherChildrenKept(t, uid); }
    case Hollow(n, _, t) => if n != "fileuid" { OtherChildrenKept(t, uid); }
    case Leaf(_, t) => OtherChildrenKept(t, uid);
  }

  lemma {:induction false} NoContentUid(kids: Nodes, before: int, other: int)
    ensures !ContentUid(kids) ==> ParsedUid(kids, before) == before
    ensures ContentUid(kids) ==> ParsedUid(kids, before) == ParsedUid(kids, other)
  {
    match kids
    case Done =>
    case Elem(n, _, k, t) =>
      var v := ParsedNumber(TextOf(k));
      if n == "fileuid" { NoContentUid(t, v, v); } else { NoContentUid(t, before, other); }
    case Hollow(_, _, t) => NoContentUid(t, before, other);
    case Leaf(_, t) => NoContentUid(t, before, other);
  }

  lemma {:induction false} NewUid(kids: Nodes, uid: int, before: int)
    requires I64_MIN <= uid <= I64_MAX && !LaterUid(kids)
    ensures ParsedUid(WithUid(kids, uid), before) == uid
  {
    hide ParsedNumber, IntToString, ContentUid;
    PrintedNumberParses(uid);
    assert TextOf(Leaf(Text(IntToString(uid)), Done)) == IntToString(uid) + "" == IntToString(uid);
    match kids
    case Done =>
    case Elem(n, _, k, t) =>
      if n == "fileuid" { NoContentUid(t, uid, uid); } else { NewUid(t, uid, before); }
    case Hollow(n, _, t) =>
      if n == "fileuid" { NoContentUid(t, uid, uid); } else { NewUid(t, uid, before); }
    case Leaf(_, t) => NewUid(t, uid, before);
  }

  lemma {:induction false} StaleUid(kids: Nodes, uid: int, uid': int, before: int)
    requires LaterUid(kids)
    ensures ParsedUid(WithUid(kids, uid), before) == ParsedUid(WithUid(kids, uid'), before)
  {
    match kids
    case Elem(n, _, k, t) =>
      if n == "fileuid" {
        var v := ParsedNumber(TextOf(Leaf(Text(IntToString(uid)), Done)));
        NoContentUid(t, v, ParsedNumber(TextOf(Leaf(Text(IntToString(uid')), Done))));
      } else {
        StaleUid(t, uid, uid', before);
      }
    case Hollow(n, _, t) =>
      if n == "fileuid" {
        var v := ParsedNumber(TextOf(Leaf(Text(IntToString(uid)), Done)));
        NoContentUid(t, v, ParsedNumber(TextOf(Leaf(Text(IntToString(uid')), Done))));
      } else {
        StaleUid(t, uid, uid', before);
      }
    case Leaf(_, t) => StaleUid(t, uid, uid', before);
  }

  /** The new UID takes effect, whatever number is given, exactly when no `fileuid` element
      with content follows the first `fileuid` child: the copier edits the first one, while
      the parser believes the last one. */
  lemma UidTakesEffectIff(kids: Nodes)
    ensures (forall uid :: I64_MIN <= uid <= I64_MAX ==> ParsedUid(WithUid(kids, uid), 0) == uid)
            <==> !LaterUid(kids)
  {
    if LaterUid(kids) {
      StaleUid(kids, 1, 2, 0);
    } else {
      forall uid | I64_MIN <= uid <= I64_MAX ensures ParsedUid(WithUid(kids, uid), 0) == uid {
        NewUid(kids, uid, 0);
      }
    }
  }

  /** A record on which it fails: two UID elements, of which the second survives. */
  lemma TwoUidsExample(uid: int)
    requires I64_MIN <= uid <= I64_MAX
    ensures var seven := Elem("fileuid", "", Leaf(Text("7"), Done), Done);
            ParsedUid(WithUid(Elem("fileuid", "", Done, seven), uid), 0) == 7
  {
    assert NatToString(7) == "7" && IntToString(7) == "7";
    PrintedNumberParses(7);
    assert TextOf(Leaf(Text("7"), Done)) == "7" + "" == "7";
    var seven := Elem("fileuid", "", Leaf(Text("7"), Done), Done);
    assert WithUid(Elem("fileuid", "", Done, seven), uid).next == seven;
    assert forall before :: ParsedUid(seven, before) == 7;
  }
}
