/** The parsers of one file record as the program runs them: loops pulling events from a reader. */
module FileParser {
  import opened Common
  import opened EventStream
  import opened FileRecord
  import opened RecordUid
  import opened XmlEvents

  class FileParser {
    const reader: EventReader

    constructor (reader: EventReader)
      ensures this.reader == reader
    {
      this.reader := reader;
    }

    /** Consume an element whose start tag has been read; `false` if it holds something refused. */
    method SkipElement(ghost name: string, ghost kids: Nodes, ghost tail: seq<Event>) returns (ok: bool)
      requires Proper(kids) && reader.unread == Ahead(kids, name, tail)
      modifies reader
      ensures ok == Clean(kids)
      ensures ok ==> reader.unread == tail
    {
      hide Ahead, DecodeGeneralRef, Clean, Proper, AllClean, AllProper, Allowed;
      var depth := 1;
      ghost var stack := [Open(kids, name)];
      SkipStart(name, kids, tail);
      while depth > 0
        invariant depth == |stack| && AllProper(stack)
        invariant reader.unread == Unwind(stack, tail)
        invariant Clean(kids) <==> AllClean(stack)
        decreases |reader.unread|
      {
        UnwindStep(stack, tail);
        CleanStep(stack);
        AllowedLeaf(FirstEvent(stack[0].rest, stack[0].name));
        LeafIsLeaf(stack);
        var e := reader.Next();
        match e {
          case Start(_, _) => depth := depth + 1;
          case End(_) => depth := depth - 1;
          case Decl => return false;
          case DocType => return false;
          case GeneralRef(text) =>
            if DecodeGeneralRef(text).None? { return false; }
          case _ =>
        }
        stack := After(stack);
      }
      NothingLeft(stack);
      return true;
    }

    method ReadText(expected: string, ghost kids: Nodes, ghost tail: seq<Event>) returns (r: Option<string>)
      requires Proper(kids) && reader.unread == Ahead(kids, expected, tail)
      modifies reader
      ensures r == TextIn(kids)
      ensures r.Some? ==> reader.unread == tail
    {
      hide Ahead, DecodeGeneralRef, Clean, TextOf, Proper;
      var result := "";
      assert result + TextOf(kids) == TextOf(kids);
      ghost var rest := kids;
      while true
        invariant Proper(rest) && reader.unread == Ahead(rest, expected, tail)
        invariant Clean(kids) <==> Clean(rest)
        invariant Clean(kids) ==> TextOf(kids) == result + TextOf(rest)
        decreases rest
      {
        AheadStep(rest, expected, tail);
        TextStep(rest, result);
        ProperStep(rest);
        var e := reader.Next();
        match e {
          case Text(x) => result := result + x;
          case CData(x) => result := result + x;
          case GeneralRef(x) =>
            match DecodeGeneralRef(x) {
              case None => return None;
              case Some(y) => result := result + y;
            }
          case Start(n, _) =>
            var ok := SkipElement(n, rest.kids, Ahead(rest.next, expected, tail));
            if !ok { return None; }
          case End(n) =>
            if n == expected { return Some(result); }
          case Decl => return None;
          case DocType => return None;
          case _ =>
        }
        rest := Siblings(rest);
      }
    }

    method ParseExtent(ghost kids: Nodes, ghost tail: seq<Event>) returns (r: Option<Extent>)
      requires Proper(kids) && reader.unread == Ahead(kids, "extent", tail)
      modifies reader
      ensures r == ExtentIn(kids, NoExtent)
      ensures r.Some? ==> reader.unread == tail
    {
      hide Ahead, Clean, TextOf, Proper, DecodeValue, ParsedNumber, ParsePartition;
      var result := NoExtent;
      ghost var rest := kids;
      while true
        invariant Proper(rest) && reader.unread == Ahead(rest, "extent", tail)
        invariant ExtentIn(kids, NoExtent) == ExtentIn(rest, result)
        decreases rest
      {
        AheadStep(rest, "extent", tail);
        ProperStep(rest);
        ghost var after := Ahead(Siblings(rest), "extent", tail);
        var e := reader.Next();
        match e {
          case Start(n, _) =>
            var text := ReadText(n, rest.kids, after);
            match text {
              case None => return None;
              case Some(s) =>
                if n == "fileoffset" { result := result.(fileOffset := ParsedNumber(s)); }
                else if n == "partition" { result := result.(partition := ParsePartition(s)); }
                else if n == "startblock" { result := result.(startBlock := ParsedNumber(s)); }
                else if n == "byteoffset" { result := result.(byteOffset := ParsedNumber(s)); }
                else if n == "bytecount" { result := result.(byteCount := ParsedNumber(s)); }
            }
          case Empty(n, _) => 
          case Text(_) =>
          case CData(_) =>
          case Comment(_) =>
          case PI(_) =>
          case End(n) =>
            if n == "extent" { return Some(result); }
          case Decl => return None;
          case DocType => return None;
          case GeneralRef(_) => return None;
        }
        rest := Siblings(rest);
      }
    }

    method ParseExtents(before: seq<Extent>, expected: string, ghost kids: Nodes, ghost tail: seq<Event>)
      returns (r: Option<seq<Extent>>)
      requires Proper(kids) && reader.unread == Ahead(kids, expected, tail)
      modifies reader
      ensures r == ExtentsIn(kids, before)
      ensures r.Some? ==> reader.unread == tail
    {
      hide Ahead, Clean, TextOf, Proper, DecodeValue, ParsedNumber, ExtentIn;
      var extents := before;
      ghost var rest := kids;
      while true
        invariant Proper(rest) && reader.unread == Ahead(rest, expected, tail)
        invariant ExtentsIn(kids, before) == ExtentsIn(rest, extents)
        decreases rest
      {
        AheadStep(rest, expected, tail);
        ProperStep(rest);
        ghost var after := Ahead(Siblings(rest), expected, tail);
        var e := reader.Next();
        match e {
          case Start(n, _) =>
            if n == "extent" {
              var extent := ParseExtent(rest.kids, after);
              match extent {
                case None => return None;
                case Some(x) => extents := extents + [x];
              }
            } else {
              var ok := SkipElement(n, rest.kids, after);
              if !ok { return None; }
            }
          case Empty(n, _) => if n == "extent" { extents := extents + [NoExtent]; }
          case Text(_) =>
          case CData(_) =>
          case Comment(_) =>
          case PI(_) =>
          case End(n) =>
            if n == expected { return Some(extents); }
          case Decl => return None;
          case DocType => return None;
          case GeneralRef(_) => return None;
        }
        rest := Siblings(rest);
      }
    }

    /** Tape sorting needs only the first extent; the others are skipped. */
    method ParseFirstExtent(before: Extent, expected: string, ghost kids: Nodes, ghost tail: seq<Event>)
      returns (r: Option<Extent>)
      requires Proper(kids) && reader.unread == Ahead(kids, expected, tail)
      modifies reader
      ensures r == FirstExtentIn(kids, false, before)
      ensures r.Some? ==> reader.unread == tail
    {
      hide Ahead, Clean, TextOf, Proper, DecodeValue, ParsedNumber, ExtentIn;
      var result, found := before, false;
      ghost var rest := kids;
      while true
        invariant Proper(rest) && reader.unread == Ahead(rest, expected, tail)
        invariant FirstExtentIn(kids, false, before) == FirstExtentIn(rest, found, result)
        decreases rest
      {
        AheadStep(rest, expected, tail);
        ProperStep(rest);
        ghost var after := Ahead(Siblings(rest), expected, tail);
        var e := reader.Next();
        match e {
          case Start(n, _) =>
            if n == "extent" && !found {
              var extent := ParseExtent(rest.kids, after);
              match extent {
                case None => return None;
                case Some(x) =>
                  result := result.(partition := x.partition, startBlock := x.startBlock,
                                    byteOffset := x.byteOffset, byteCount := x.byteCount);
                  found := true;
              }
            } else {
              var ok := SkipElement(n, rest.kids, after);
              if !ok { return None; }
            }
          case Empty(n, _) => if n == "extent" { found := true; }
          case Text(_) =>
          case CData(_) =>
          case Comment(_) =>
          case PI(_) =>
          case End(n) =>
            if n == expected { return Some(result); }
          case Decl => return None;
          case DocType => return None;
          case GeneralRef(_) => return None;
        }
        rest := Siblings(rest);
      }
    }

    method ParseXattr(ghost kids: Nodes, ghost tail: seq<Event>) returns (r: Option<(string, string)>)
      requires Proper(kids) && reader.unread == Ahead(kids, "xattr", tail)
      modifies reader
      ensures r == XattrIn(kids, "", "")
      ensures r.Some? ==> reader.unread == tail
    {
      hide Ahead, Clean, TextOf, Proper, DecodeValue, ParsedNumber;
      var key, value := "", "";
      ghost var rest := kids;
      while true
        invariant Proper(rest) && reader.unread == Ahead(rest, "xattr", tail)
        invariant XattrIn(kids, "", "") == XattrIn(rest, key, value)
        decreases rest
      {
        AheadStep(rest, "xattr", tail);
        ProperStep(rest);
        ghost var after := Ahead(Siblings(rest), "xattr", tail);
        var e := reader.Next();
        match e {
          case Start(n, _) =>
            if n == "key" || n == "value" {
              var text := ReadText(n, rest.kids, after);
              match text {
                case None => return None;
                case Some(s) =>
                  if n == "key" { key := DecodeValue(s); } else { value := DecodeValue(s); }
              }
            } else {
              var ok := SkipElement(n, rest.kids, after);
              if !ok { return None; }
            }
          case Empty(n, _) => 
          case Text(_) =>
          case CData(_) =>
          case Comment(_) =>
          case PI(_) =>
          case End(n) =>
            if n == "xattr" { return Some((key, value)); }
          case Decl => return None;
          case DocType => return None;
          case GeneralRef(_) => return None;
        }
        rest := Siblings(rest);
      }
    }

    method ParseXattrs(before: seq<(string, string)>, expected: string, ghost kids: Nodes, ghost tail: seq<Event>)
      returns (r: Option<seq<(string, string)>>)
      requires Proper(kids) && reader.unread == Ahead(kids, expected, tail)
      modifies reader
      ensures r == XattrsIn(kids, before)
      ensures r.Some? ==> reader.unread == tail
    {
      hide Ahead, Clean, TextOf, Proper, DecodeValue, ParsedNumber, XattrIn;
      var xattrs := before;
      ghost var rest := kids;
      while true
        invariant Proper(rest) && reader.unread == Ahead(rest, expected, tail)
        invariant XattrsIn(kids, before) == XattrsIn(rest, xattrs)
        decreases rest
      {
        AheadStep(rest, expected, tail);
        ProperStep(rest);
        ghost var after := Ahead(Siblings(rest), expected, tail);
        var e := reader.Next();
        match e {
          case Start(n, _) =>
            if n == "xattr" {
              var xattr := ParseXattr(rest.kids, after);
              match xattr {
                case None => return None;
                case Some(x) => xattrs := xattrs + [x];
              }
            } else {
              var ok := SkipElement(n, rest.kids, after);
              if !ok { return None; }
            }
          case Empty(n, _) => if n == "xattr" { xattrs := xattrs + [("", "")]; }
          case Text(_) =>
          case CData(_) =>
          case Comment(_) =>
          case PI(_) =>
          case End(n) =>
            if n == expected { return Some(xattrs); }
          case Decl => return None;
          case DocType => return None;
          case GeneralRef(_) => return None;
        }
        rest := Siblings(rest);
      }
    }

    method ParseChild(name: string, before: FileData, ghost kids: Nodes, ghost tail: seq<Event>)
      returns (r: Option<FileData>)
      requires Proper(kids) && reader.unread == Ahead(kids, name, tail)
      modifies reader
      ensures r == ChildIn(name, kids, before)
      ensures r.Some? ==> reader.unread == tail
    {
      hide Ahead, Clean, TextOf, Proper, XattrsIn, ExtentsIn, DecodeValue, ParsedNumber, ParseBool;
      if name == "extendedattributes" {
        var xattrs := ParseXattrs(before.xattrs, name, kids, tail);
        return match xattrs case None => None case Some(xs) => Some(before.(xattrs := xs));
      }
      if name == "extentinfo" {
        var extents := ParseExtents(before.extents, name, kids, tail);
        return match extents case None => None case Some(xs) => Some(before.(extents := xs));
      }
      if name !in {"name", "length", "readonly", "openforwrite", "creationtime", "changetime", "modifytime",
                   "accesstime",
                   "backuptime", "fileuid", "symlink"} {
        var ok := SkipElement(name, kids, tail);
        UnknownField(name, kids, before);
        return if ok then Some(before) else None;
      }
      var text := ReadText(name, kids, tail);
      if text.None? { return None; }
      var s := text.value;
      TextSays(name, s, before);
      hide TextField, FieldNamed;
      if name == "name" {
        r := Some(before.(name := DecodeValue(s)));
      } else if name == "length" {
        r := Some(before.(length := ParsedNumber(s)));
      } else if name == "readonly" {
        r := Some(before.(readOnly := ParseBool(s, false)));
      } else if name == "openforwrite" {
        r := Some(before.(openForWrite := ParseBool(s, true)));
      } else if name == "creationtime" {
        r := Some(before.(creationTime := Some(DecodeValue(s))));
      } else if name == "changetime" {
        r := Some(before.(changeTime := Some(DecodeValue(s))));
      } else if name == "modifytime" {
        r := Some(before.(modifyTime := Some(DecodeValue(s))));
      } else if name == "accesstime" {
        r := Some(before.(accessTime := Some(DecodeValue(s))));
      } else if name == "backuptime" {
        r := Some(before.(backupTime := Some(DecodeValue(s))));
      } else if name == "fileuid" {
        r := Some(before.(fileUid := ParsedNumber(s)));
      } else {
        r := Some(before.(symlink := Some(DecodeValue(s))));
      }
    }

    /** Up to the record's start tag. */
    method FindRoot(ghost doc: Nodes) returns (found: bool, hollow: bool, ghost tail: seq<Event>)
      requires Proper(doc) && reader.unread == Flatten(doc)
      modifies reader
      ensures found <==> RootOf(doc) != NoRoot
      ensures found ==> (hollow <==> RootOf(doc) == HollowRoot)
      ensures found && !hollow ==>
        RootOf(doc).RootWith? && Proper(RootOf(doc).kids) && reader.unread == Ahead(RootOf(doc).kids, "file", tail)
    {
      hide AsciiWhitespace, Ahead;
      tail, hollow := [], false;
      ghost var rest := doc;
      while true
        invariant Proper(rest) && reader.unread == Flatten(rest)
        invariant RootOf(doc) == RootOf(rest)
        decreases rest
      {
        FlattenStep(rest);
        if reader.unread == [] { return false, false, tail; }
        var e := reader.Next();
        match e {
          case Start(n, _) =>
            if n != "file" { return false, false, tail; }
            return true, false, Flatten(rest.next);
          case Empty(n, _) => return n == "file", true, tail;
          case Decl =>
          case Comment(_) =>
          case PI(_) =>
          case Text(text) =>
            if !AsciiWhitespace(text) { return false, false, tail; }
          case DocType => return false, false, tail;
          case GeneralRef(_) => return false, false, tail;
          case CData(_) => return false, false, tail;
          case End(_) => return false, false, tail;
        }
        rest := rest.next;
      }
    }

    /** Everything in the record. */
    method Parse(ghost doc: Nodes) returns (r: Option<FileData>)
      requires Proper(doc) && reader.unread == Flatten(doc)
      modifies reader
      ensures r == Full(doc)
      // with every element name written out
      ensures r == match RootOf(doc)
                   case NoRoot => None
                   case HollowRoot => Some(Described(Done))
                   case RootWith(kids) => if Readable(kids) then Some(Described(kids)) else None
    {
      FullIs(doc);
      hide Ahead, Clean, TextOf, Proper, DecodeValue, ParsedNumber, ChildIn, FirstExtentIn, RootOf, Described, Readable;
      var found, hollow;
      ghost var tail;
      found, hollow, tail := FindRoot(doc);
      if !found { return None; }
      if hollow { return Some(NewFile); }
      ghost var kids := RootOf(doc).kids;
      var result := NewFile;
      ghost var rest := kids;
      while true
        invariant Proper(rest) && reader.unread == Ahead(rest, "file", tail)
        invariant FullIn(kids, NewFile) == FullIn(rest, result)
        decreases rest
      {
        AheadStep(rest, "file", tail);
        ProperStep(rest);
        ghost var after := Ahead(Siblings(rest), "file", tail);
        var e := reader.Next();
        match e {
          case Start(n, _) =>
            var parsed := ParseChild(n, result, rest.kids, after);
            match parsed {
              case None => return None;
              case Some(d) => result := d;
            }
          case Empty(n, _) => if n == "symlink" { result := result.(symlink := Some("")); }
          case Text(_) =>
          case CData(_) =>
          case Comment(_) =>
          case PI(_) =>
          case End(n) =>
            if n == "file" { return Some(result); }
          case Decl => return None;
          case DocType => return None;
          case GeneralRef(_) => return None;
        }
        rest := Siblings(rest);
      }
    }

    /** Just the name: nothing after it is read. */
    method ParseName(ghost doc: Nodes) returns (r: Option<string>)
      requires Proper(doc) && reader.unread == Flatten(doc)
      modifies reader
      ensures r == NameOnly(doc)
    {
      hide Ahead, Clean, TextOf, Proper, DecodeValue, ParsedNumber, ChildIn, FirstExtentIn, RootOf;
      var found, hollow;
      ghost var tail;
      found, hollow, tail := FindRoot(doc);
      if !found { return None; }
      if hollow { return Some(""); }
      ghost var kids := RootOf(doc).kids;
      ghost var rest := kids;
      while true
        invariant Proper(rest) && reader.unread == Ahead(rest, "file", tail)
        invariant NameIn(kids) == NameIn(rest)
        decreases rest
      {
        AheadStep(rest, "file", tail);
        ProperStep(rest);
        ghost var after := Ahead(Siblings(rest), "file", tail);
        var e := reader.Next();
        match e {
          case Start(n, _) =>
            if n == "name" {
              var text := ReadText(n, rest.kids, after);
              return match text case None => None case Some(s) => Some(DecodeValue(s));
            } else {
              var ok := SkipElement(n, rest.kids, after);
              if !ok { return None; }
            }
          case Empty(n, _) => if n == "name" { return Some(""); }
          case Text(_) =>
          case CData(_) =>
          case Comment(_) =>
          case PI(_) =>
          case End(n) =>
            if n == "file" { return Some(""); }
          case Decl => return None;
          case DocType => return None;
          case GeneralRef(_) => return None;
        }
        rest := Siblings(rest);
      }
    }

    /** Just the length: nothing after it is read. */
    method ParseLength(ghost doc: Nodes) returns (r: Option<int>)
      requires Proper(doc) && reader.unread == Flatten(doc)
      modifies reader
      ensures r == LengthOnly(doc)
    {
      hide Ahead, Clean, TextOf, Proper, DecodeValue, ParsedNumber, ChildIn, FirstExtentIn, RootOf;
      var found, hollow;
      ghost var tail;
      found, hollow, tail := FindRoot(doc);
      if !found { return None; }
      if hollow { return Some(0); }
      ghost var kids := RootOf(doc).kids;
      ghost var rest := kids;
      while true
        invariant Proper(rest) && reader.unread == Ahead(rest, "file", tail)
        invariant LengthIn(kids) == LengthIn(rest)
        decreases rest
      {
        AheadStep(rest, "file", tail);
        ProperStep(rest);
        ghost var after := Ahead(Siblings(rest), "file", tail);
        var e := reader.Next();
        match e {
          case Start(n, _) =>
            if n == "length" {
              var text := ReadText(n, rest.kids, after);
              return match text case None => None case Some(s) => Some(ParsedNumber(s));
            } else {
              var ok := SkipElement(n, rest.kids, after);
              if !ok { return None; }
            }
          case Empty(n, _) => if n == "length" { return Some(0); }
          case Text(_) =>
          case CData(_) =>
          case Comment(_) =>
          case PI(_) =>
          case End(n) =>
            if n == "file" { return Some(0); }
          case Decl => return None;
          case DocType => return None;
          case GeneralRef(_) => return None;
        }
        rest := Siblings(rest);
      }
    }

    /** Name, length and first extent. */
    method ParseSummary(ghost doc: Nodes) returns (r: Option<Summary>)
      requires Proper(doc) && reader.unread == Flatten(doc)
      modifies reader
      ensures r == SummaryOnly(doc)
    {
      hide Ahead, Clean, TextOf, Proper, DecodeValue, ParsedNumber, ChildIn, FirstExtentIn, RootOf;
      var found, hollow;
      ghost var tail;
      found, hollow, tail := FindRoot(doc);
      if !found { return None; }
      if hollow { return Some(NoSummary); }
      ghost var kids := RootOf(doc).kids;
      var result := NoSummary;
      ghost var rest := kids;
      while true
        invariant Proper(rest) && reader.unread == Ahead(rest, "file", tail)
        invariant SummaryIn(kids, NoSummary) == SummaryIn(rest, result)
        decreases rest
      {
        AheadStep(rest, "file", tail);
        ProperStep(rest);
        ghost var after := Ahead(Siblings(rest), "file", tail);
        var e := reader.Next();
        match e {
          case Start(n, _) =>
            if n == "name" {
              var text := ReadText(n, rest.kids, after);
              match text {
                case None => return None;
                case Some(s) => result := result.(name := DecodeValue(s));
              }
            } else if n == "length" {
              var text := ReadText(n, rest.kids, after);
              match text {
                case None => return None;
                case Some(s) => result := result.(length := ParsedNumber(s));
              }
            } else if n == "extentinfo" {
              var first := ParseFirstExtent(result.first, n, rest.kids, after);
              match first {
                case None => return None;
                case Some(x) => result := result.(first := x);
              }
            } else {
              var ok := SkipElement(n, rest.kids, after);
              if !ok { return None; }
            }
          case Empty(n, _) =>
            if n == "name" {
              result := result.(name := "");
            } else if n == "length" {
              result := result.(length := 0);
            }
          case Text(_) =>
          case CData(_) =>
          case Comment(_) =>
          case PI(_) =>
          case End(n) =>
            if n == "file" { return Some(result); }
          case Decl => return None;
          case DocType => return None;
          case GeneralRef(_) => return None;
        }
        rest := Siblings(rest);
      }
    }
  }

  function Siblings(rest: Nodes): Nodes { if rest.Done? then Done else rest.next }

  lemma ProperStep(rest: Nodes)
    requires Proper(rest)
    ensures Proper(Siblings(rest)) && (rest.Elem? ==> Proper(rest.kids)) && (rest.Leaf? ==> !Structural(rest.event))
  {
  }

  function EventText(e: Event): string {
    match e
    case Text(x) => x
    case CData(x) => x
    case GeneralRef(x) => (match DecodeGeneralRef(x) case None => "" case Some(y) => y)
    case _ => ""
  }

  /** Taking one node off the content of a text element. */
  lemma {:induction false} TextStep(rest: Nodes, before: string)
    requires Proper(rest)
    ensures rest.Done? ==> Clean(rest) && before + TextOf(rest) == before
    ensures rest.Elem? ==> (Clean(rest) <==> Clean(rest.kids) && Clean(rest.next))
    ensures rest.Hollow? ==> (Clean(rest) <==> Clean(rest.next))
    ensures rest.Leaf? ==> (Clean(rest) <==> Allowed(rest.event) && Clean(rest.next))
    ensures rest.Elem? || rest.Hollow? ==> TextOf(rest) == TextOf(rest.next)
    ensures rest.Leaf? ==> before + TextOf(rest) == before + EventText(rest.event) + TextOf(rest.next)
    ensures rest.Leaf? && EventText(rest.event) == "" ==> before + TextOf(rest) == before + TextOf(rest.next)
  {
    hide DecodeGeneralRef, EventText, Allowed, TextOf;
    if rest.Done? { NoText(rest); }
    if rest.Elem? || rest.Hollow? { NoText(rest); }
    if rest.Leaf? {
      LeafText(rest);
      assert before + (EventText(rest.event) + TextOf(rest.next)) == before + EventText(rest.event) + TextOf(rest.next);
    }
  }

  lemma {:induction false} NoText(rest: Nodes)
    ensures rest.Done? ==> TextOf(rest) == ""
    ensures rest.Elem? || rest.Hollow? ==> TextOf(rest) == TextOf(rest.next)
  {
  }

  lemma {:induction false} LeafText(rest: Nodes)
    requires Proper(rest) && rest.Leaf?
    ensures TextOf(rest) == EventText(rest.event) + TextOf(rest.next)
  {
    hide DecodeGeneralRef;
  }

  lemma NothingLeft(stack: seq<Open>)
    requires stack == []
    ensures AllClean(stack)
  {
  }

  lemma UnknownField(name: string, kids: Nodes, d: FileData)
    requires name !in {"name", "length", "readonly", "openforwrite", "creationtime", "changetime", "modifytime",
                       "accesstime", "backuptime", "fileuid", "symlink", "extendedattributes", "extentinfo"}
    ensures ChildIn(name, kids, d) == if Clean(kids) then Some(d) else None
  {
    hide Clean, TextOf;
  }

  lemma FlattenStep(rest: Nodes)
    requires Proper(rest)
    ensures rest.Done? <==> Flatten(rest) == []
    ensures rest.Elem? ==>
      Proper(rest.kids) && Flatten(rest) == [Start(rest.name, rest.attributes)]
        + Ahead(rest.kids, rest.name, Flatten(rest.next))
    ensures rest.Hollow? ==> Flatten(rest) == [Empty(rest.name, rest.attributes)] + Flatten(rest.next)
    ensures rest.Leaf? ==> !Structural(rest.event) && Flatten(rest) == [rest.event] + Flatten(rest.next)
    ensures !rest.Done? ==> Proper(rest.next)
  {
  }
}
