/** What the full parser makes of a record after the barcode was added to it. */
module BarcodeReading {
  import opened Common
  import opened FileRecord
  import opened RecordBarcode
  import opened RecordUid
  import opened XmlEvents

  // ----- layout and comments carry no meaning

  lemma {:induction false} StrippedClean(n: Nodes, formatting: bool)
    ensures Clean(Stripped(n, formatting)) == Clean(n)
  {
    hide Formatting, XmlWhitespace, DecodeGeneralRef;
    match n
    case Done =>
    case Elem(name, _, k, t) => StrippedClean(k, Formatting(name)); StrippedClean(t, formatting);
    case Hollow(_, _, t) => StrippedClean(t, formatting);
    case Leaf(_, t) => StrippedClean(t, formatting);
  }

  lemma {:induction false} StrippedText(n: Nodes)
    ensures TextOf(Stripped(n, false)) == TextOf(n)
  {
    hide Formatting, XmlWhitespace, DecodeGeneralRef;
    match n
    case Done =>
    case Elem(_, _, _, t) => StrippedText(t);
    case Hollow(_, _, t) => StrippedText(t);
    case Leaf(e, t) => StrippedText(t);
  }

  /** Text is read as before from an element whose whitespace is kept, and is refused as before from any. */
  lemma StrippedTextIn(n: Nodes, formatting: bool)
    ensures TextIn(Stripped(n, formatting)).Some? == TextIn(n).Some?
    ensures !formatting ==> TextIn(Stripped(n, formatting)) == TextIn(n)
  {
    hide Clean, TextOf;
    StrippedClean(n, formatting);
    if !formatting { StrippedText(n); }
  }

  lemma {:induction false} StrippedExtent(n: Nodes, x: Extent)
    ensures ExtentIn(Stripped(n, true), x) == ExtentIn(n, x)
  {
    hide Clean, TextOf, XmlWhitespace, ParsedNumber, ParsePartition;
    match n
    case Done =>
    case Elem(name, _, k, t) =>
      StrippedTextIn(k, Formatting(name));
      if TextIn(k).Some? {
        ExtentTextUnused(name, TextIn(k).value, TextIn(Stripped(k, Formatting(name))).value, x);
        StrippedExtent(t, ExtentField(name, TextIn(k).value, x));
      }
    case Hollow(_, _, t) => StrippedExtent(t, x);
    case Leaf(_, t) => StrippedExtent(t, x);
  }

  lemma ExtentTextUnused(name: string, s: string, s': string, x: Extent)
    requires Formatting(name) || s == s'
    ensures ExtentField(name, s, x) == ExtentField(name, s', x)
  {
  }

  lemma {:induction false} StrippedExtents(n: Nodes, xs: seq<Extent>)
    ensures ExtentsIn(Stripped(n, true), xs) == ExtentsIn(n, xs)
  {
    hide Clean, XmlWhitespace, ExtentIn, Formatting;
    match n
    case Done =>
    case Elem(name, _, k, t) =>
      FormattingNames();
      if name == "extent" {
        StrippedExtent(k, NoExtent);
        if ExtentIn(k, NoExtent).Some? { StrippedExtents(t, xs + [ExtentIn(k, NoExtent).value]); }
      } else {
        StrippedClean(k, Formatting(name));
        StrippedExtents(t, xs);
      }
    case Hollow(name, _, t) => StrippedExtents(t, if name == "extent" then xs + [NoExtent] else xs);
    case Leaf(_, t) => StrippedExtents(t, xs);
  }

  lemma FormattingNames()
    ensures Formatting("extendedattributes") && Formatting("xattr") && Formatting("extentinfo") && Formatting("extent")
    ensures !Formatting("key") && !Formatting("value")
  {
  }

  lemma {:induction false} StrippedXattr(n: Nodes, key: string, value: string)
    ensures XattrIn(Stripped(n, true), key, value) == XattrIn(n, key, value)
  {
    hide Clean, TextOf, XmlWhitespace, DecodeValue, Formatting;
    match n
    case Done =>
    case Elem(name, _, k, t) =>
      FormattingNames();
      StrippedTextIn(k, Formatting(name));
      if TextIn(k).Some? {
        var s := DecodeValue(TextIn(k).value);
        StrippedXattr(t, if name == "key" then s else key, if name == "value" then s else value);
      }
    case Hollow(_, _, t) => StrippedXattr(t, key, value);
    case Leaf(_, t) => StrippedXattr(t, key, value);
  }

  lemma {:induction false} StrippedXattrs(n: Nodes, xs: seq<(string, string)>)
    ensures XattrsIn(Stripped(n, true), xs) == XattrsIn(n, xs)
  {
    hide Clean, XmlWhitespace, XattrIn, Formatting;
    match n
    case Done =>
    case Elem(name, _, k, t) =>
      FormattingNames();
      if name == "xattr" {
        StrippedXattr(k, "", "");
        if XattrIn(k, "", "").Some? { StrippedXattrs(t, xs + [XattrIn(k, "", "").value]); }
      } else {
        StrippedClean(k, Formatting(name));
        StrippedXattrs(t, xs);
      }
    case Hollow(name, _, t) => StrippedXattrs(t, if name == "xattr" then xs + [("", "")] else xs);
    case Leaf(_, t) => StrippedXattrs(t, xs);
  }

  /** A child other than a container means what it did. */
  lemma StrippedChild(name: string, k: Nodes, d: FileData)
    ensures ChildIn(name, Stripped(k, Formatting(name)), d) == ChildIn(name, k, d)
  {
    hide Clean, TextOf, XattrsIn, ExtentsIn, TextField, Formatting, XmlWhitespace;
    FormattingNames();
    if name == "extendedattributes" {
      StrippedXattrs(k, d.xattrs);
    } else if name == "extentinfo" {
      StrippedExtents(k, d.extents);
    } else {
      StrippedTextIn(k, Formatting(name));
      if Formatting(name) && TextIn(k).Some? {
        FormattingUnread(name, TextIn(k).value, TextIn(Stripped(k, true)).value, d);
      }
    }
  }

  lemma FormattingUnread(name: string, s: string, s': string, d: FileData)
    requires Formatting(name)
    ensures TextField(name, s, d) == TextField(name, s', d)
  {
    hide DecodeValue, ParsedNumber, ParseBool;
    assert FieldNamed(name).NoField?;
  }

  // ----- the attribute added

  /** What is read so far stays in front of what is read next. */
  lemma {:induction false} XattrsAppend(k: Nodes, xs: seq<(string, string)>)
    ensures XattrsIn(k, xs) == match XattrsIn(k, []) case None => None case Some(ys) => Some(xs + ys)
    decreases k, 0
  {
    hide Clean, XattrIn;
    match k
    case Done => assert xs + [] == xs;
    case Elem(n, _, kk, t) =>
      if n == "xattr" && XattrIn(kk, "", "").Some? {
        XattrsGrow(t, XattrIn(kk, "", "").value, xs);
      } else if n != "xattr" {
        XattrsAppend(t, xs);
      }
    case Hollow(n, _, t) =>
      if n == "xattr" { XattrsGrow(t, ("", ""), xs); } else { XattrsAppend(t, xs); }
    case Leaf(_, t) => XattrsAppend(t, xs);
  }

  lemma XattrsGrow(t: Nodes, x: (string, string), xs: seq<(string, string)>)
    ensures XattrsIn(t, xs + [x]) == match XattrsIn(t, [] + [x]) case None => None case Some(ys) => Some(xs + ys)
    decreases t, 1
  {
    hide Clean, XattrIn, XattrsIn;
    XattrsAppend(t, xs + [x]);
    XattrsAppend(t, [] + [x]);
    if XattrsIn(t, []).Some? {
      var ys := XattrsIn(t, []).value;
      assert xs + [x] + ys == xs + ([] + [x] + ys);
    }
  }

  function Barcode(barcode: string): (string, string) { (DecodeValue("Barcode"), DecodeValue(barcode)) }

  lemma OneText(s: string)
    ensures TextIn(Leaf(Text(s), Done)) == Some(s)
  {
    var text := Leaf(Text(s), Done);
    assert TextOf(text) == s + "" == s;
    assert Clean(text);
  }

  lemma ReadsBarcode(barcode: string)
    ensures XattrIn(XattrContent(barcode), "", "") == Some(Barcode(barcode))
  {
    hide DecodeValue;
    var other := Leaf(Text(barcode), Done);
    OneText("Barcode");
    OneText(barcode);
    var value := Elem("value", "", other, Done);
    assert XattrIn(Done, DecodeValue("Barcode"), DecodeValue(barcode)) == Some(Barcode(barcode));
    assert XattrIn(value, DecodeValue("Barcode"), "") == Some(Barcode(barcode));
  }

  lemma {:induction false} TaggedXattrs(k: Nodes, barcode: string, xs: seq<(string, string)>)
    ensures XattrsIn(Tagged(k, barcode), xs) ==
            match XattrsIn(k, xs) case None => None case Some(ys) => Some(ys + [Barcode(barcode)])
  {
    hide Clean, XattrIn, XattrContent, Barcode;
    match k
    case Done => ReadsBarcode(barcode);
    case Elem(n, _, kk, t) =>
      if n == "xattr" && XattrIn(kk, "", "").Some? {
        TaggedXattrs(t, barcode, xs + [XattrIn(kk, "", "").value]);
      } else if n != "xattr" {
        TaggedXattrs(t, barcode, xs);
      }
    case Hollow(n, _, t) => TaggedXattrs(t, barcode, if n == "xattr" then xs + [("", "")] else xs);
    case Leaf(_, t) => TaggedXattrs(t, barcode, xs);
  }

  /** The attributes a container holds. */
  function Held(k: Nodes): seq<(string, string)> {
    match XattrsIn(k, []) case None => [] case Some(xs) => xs
  }

  /** The attributes a record's children hold, with `extra` after those of each container. */
  function HeldBy(kids: Nodes, extra: seq<(string, string)>): seq<(string, string)> {
    match kids
    case Done => []
    case Elem(n, _, k, t) => (if n == "extendedattributes" then Held(k) + extra else []) + HeldBy(t, extra)
    case Hollow(n, _, t) => (if n == "extendedattributes" then extra else []) + HeldBy(t, extra)
    case Leaf(_, t) => HeldBy(t, extra)
  }

  lemma {:induction false} HeldCount(kids: Nodes, x: (string, string))
    ensures |HeldBy(kids, [x])| == |HeldBy(kids, [])| + Children(kids, "extendedattributes")
    ensures Children(kids, "extendedattributes") == 0 ==> HeldBy(kids, [x]) == [] == HeldBy(kids, [])
    ensures Children(kids, "extendedattributes") == 1 ==> HeldBy(kids, [x]) == HeldBy(kids, []) + [x]
  {
    hide Held;
    match kids
    case Done =>
    case Elem(_, _, _, t) => HeldCount(t, x);
    case Hollow(_, _, t) => HeldCount(t, x);
    case Leaf(_, t) => HeldCount(t, x);
  }

  lemma FieldXattrs(n: string, s: string, d: FileData, xs: seq<(string, string)>)
    ensures TextField(n, s, d.(xattrs := xs)) == TextField(n, s, d).(xattrs := xs)
    ensures TextField(n, s, d).xattrs == d.xattrs
  {
    hide DecodeValue, ParsedNumber, ParseBool, FieldNamed;
    match FieldNamed(n)
    case NameField =>
    case LengthField =>
    case ReadOnlyField =>
    case OpenField =>
    case CreationField =>
    case ChangeField =>
    case ModifyField =>
    case AccessField =>
    case BackupField =>
    case UidField =>
    case SymlinkField =>
    case NoField =>
  }

  lemma ChildXattrs(n: string, k: Nodes, d: FileData, xs: seq<(string, string)>)
    ensures ChildIn(n, k, d.(xattrs := xs)) ==
            match ChildIn(n, k, d)
            case None => None
            case Some(f) => Some(f.(xattrs := if n == "extendedattributes" then xs + Held(k) else xs))
    ensures n != "extendedattributes" && ChildIn(n, k, d).Some? ==> ChildIn(n, k, d).value.xattrs == d.xattrs
  {
    hide TextField, TextOf, Clean, ExtentsIn, XattrsIn;
    XattrsAppend(k, xs);
    XattrsAppend(k, d.xattrs);
    FieldXattrs(n, TextOf(k), d, xs);
    if n == "extendedattributes" {
    } else if n == "extentinfo" {
    } else {
    }
  }

  /** The attributes are those met before and those held, in order; nothing else depends on them. */
  lemma {:induction false} FullXattrs(kids: Nodes, d: FileData, xs: seq<(string, string)>)
    ensures FullIn(kids, d.(xattrs := xs)) ==
            match FullIn(kids, d)
            case None => None
            case Some(f) => Some(f.(xattrs := xs + HeldBy(kids, [])))
  {
    hide ChildIn, Held;
    match kids
    case Done => assert xs + [] == xs;
    case Elem(n, _, k, t) =>
      ChildXattrs(n, k, d, xs);
      if ChildIn(n, k, d).Some? {
        var ys := if n == "extendedattributes" then xs + Held(k) else xs;
        FullXattrs(t, ChildIn(n, k, d).value, ys);
        assert ys + HeldBy(t, []) == xs + HeldBy(kids, []);
      }
    case Hollow(n, _, t) =>
      FullXattrs(t, if n == "symlink" then d.(symlink := Some("")) else d, xs);
      assert xs + HeldBy(t, []) == xs + HeldBy(kids, []);
    case Leaf(_, t) => FullXattrs(t, d, xs);
  }

  lemma ContainerChild(k: Nodes, barcode: string, d: FileData)
    ensures ChildIn("extendedattributes", Tagged(k, barcode), d) ==
            match XattrsIn(k, d.xattrs)
            case None => None
            case Some(xs) => Some(d.(xattrs := xs + [Barcode(barcode)]))
  {
    hide XattrsIn, Tagged, Barcode;
    TaggedXattrs(k, barcode, d.xattrs);
  }

  /** One container: the rest of the record is read after one attribute more. */
  lemma ContainerReads(k: Nodes, t: Nodes, barcode: string, d: FileData)
    requires XattrsIn(k, []).Some?
    ensures var d1, d2 := d.(xattrs := d.xattrs + Held(k)), d.(xattrs := d.xattrs + Held(k) + [Barcode(barcode)]);
      && ChildIn("extendedattributes", k, d) == Some(d1)
      && ChildIn("extendedattributes", Tagged(Stripped(k, true), barcode), d) == Some(d2)
      && FullIn(t, d2) == match FullIn(t, d1)
                          case None => None
                          case Some(f) => Some(f.(xattrs := d2.xattrs + HeldBy(t, [])))
  {
    hide XattrsIn, Tagged, Barcode, FullIn, HeldBy;
    var d1 := d.(xattrs := d.xattrs + Held(k));
    XattrsAppend(k, d.xattrs);
    StrippedXattrs(k, d.xattrs);
    ContainerChild(Stripped(k, true), barcode, d);
    FullXattrs(t, d1, d1.xattrs + [Barcode(barcode)]);
  }

  lemma {:induction false} LabelledReads(kids: Nodes, barcode: string, d: FileData)
    ensures FullIn(Labelled(kids, barcode), d) ==
            match FullIn(kids, d)
            case None => None
            case Some(f) => Some(f.(xattrs := d.xattrs + HeldBy(kids, [Barcode(barcode)])))
  {
    hide ChildIn, Held, Barcode, Tagged, Stripped, Formatting, XmlWhitespace;
    var extra := [Barcode(barcode)];
    match kids
    case Done => assert d.xattrs + [] == d.xattrs;
    case Elem(n, a, k, t) =>
      if n == "extendedattributes" {
        ContainerMember(k, barcode, d);
        if ChildIn(n, k, d).Some? {
          ContainerReads(k, t, barcode, d);
          var d2 := d.(xattrs := d.xattrs + Held(k) + extra);
          LabelledReads(t, barcode, d2);
          assert d2.xattrs + HeldBy(t, extra) == d.xattrs + HeldBy(kids, extra);
        }
      } else {
        StrippedChild(n, k, d);
        ChildXattrs(n, k, d, d.xattrs);
        if ChildIn(n, k, d).Some? {
          LabelledReads(t, barcode, ChildIn(n, k, d).value);
          assert [] + HeldBy(t, extra) == HeldBy(t, extra);
        }
      }
    case Hollow(n, a, t) =>
      if n == "extendedattributes" {
        ContainerReads(Done, t, barcode, d);
        NothingHeld();
        var d2 := d.(xattrs := d.xattrs + Held(Done) + extra);
        LabelledReads(t, barcode, d2);
        assert d.xattrs + [] == d.xattrs;
        assert d2.xattrs + HeldBy(t, extra) == d.xattrs + HeldBy(kids, extra);
      } else {
        LabelledReads(t, barcode, if n == "symlink" then d.(symlink := Some("")) else d);
        assert [] + HeldBy(t, extra) == HeldBy(t, extra);
      }
    case Leaf(_, t) => LabelledReads(t, barcode, d);
  }

  lemma NothingHeld()
    ensures Held(Done) == [] && Stripped(Done, true) == Done
  {
  }

  /** A container is read with the barcode exactly when it is read without. */
  lemma ContainerMember(k: Nodes, barcode: string, d: FileData)
    ensures ChildIn("extendedattributes", k, d).Some? <==> XattrsIn(k, []).Some?
    ensures ChildIn("extendedattributes", Tagged(Stripped(k, true), barcode), d).Some? <==> XattrsIn(k, []).Some?
  {
    hide XattrsIn, Tagged, Stripped;
    XattrsAppend(k, d.xattrs);
    StrippedXattrs(k, d.xattrs);
    ContainerChild(Stripped(k, true), barcode, d);
  }

  lemma {:induction false} FullSnoc(kids: Nodes, name: string, content: Nodes, d: FileData)
    ensures FullIn(Snoc(kids, name, content), d) ==
            match FullIn(kids, d) case None => None case Some(f) => ChildIn(name, content, f)
  {
    hide ChildIn;
    match kids
    case Done =>
    case Elem(n, _, k, t) => if ChildIn(n, k, d).Some? { FullSnoc(t, name, content, ChildIn(n, k, d).value); }
    case Hollow(n, _, t) => FullSnoc(t, name, content, if n == "symlink" then d.(symlink := Some("")) else d);
    case Leaf(_, t) => FullSnoc(t, name, content, d);
  }

  /** A record the full parser accepts is copied, and reads as before but for its attributes: one more
      for each container, or just one when there was none.  So the barcode is the one attribute added,
      at the end, exactly when the record has at most one container. */
  lemma BarcodeIsOneMoreAttribute(kids: Nodes, barcode: string)
    requires FullIn(kids, NewFile).Some?
    ensures Clean(kids) && FullIn(WithBarcode(kids, barcode), NewFile).Some?
    ensures var before, after := FullIn(kids, NewFile).value, FullIn(WithBarcode(kids, barcode), NewFile).value;
      var containers := Children(kids, "extendedattributes");
      && after == before.(xattrs := after.xattrs)
      && |after.xattrs| == |before.xattrs| + (if containers == 0 then 1 else containers)
      && (after.xattrs == before.xattrs + [(DecodeValue("Barcode"), DecodeValue(barcode))] <==> containers <= 1)
  {
    hide FullIn, Labelled, Held, HeldBy, Clean, Tagged, DecodeValue;
    FullIsClean(kids);
    var d := NewFile;
    assert [] + HeldBy(kids, []) == HeldBy(kids, []);
    assert [] + HeldBy(kids, [Barcode(barcode)]) == HeldBy(kids, [Barcode(barcode)]);
    assert d.(xattrs := []) == d;
    FullXattrs(kids, d, []);
    LabelledReads(kids, barcode, d);
    HeldCount(kids, Barcode(barcode));
    if Children(kids, "extendedattributes") == 0 {
      var f := FullIn(kids, d).value;
      FullSnoc(Labelled(kids, barcode), "extendedattributes", Tagged(Done, barcode), d);
      ContainerChild(Done, barcode, f);
    }
  }

  /** A record with two containers, both empty: its copy has the barcode twice. */
  lemma TwoContainersExample(barcode: string)
    ensures var kids := Hollow("extendedattributes", "", Hollow("extendedattributes", "", Done));
      && FullIn(kids, NewFile) == Some(NewFile)
      && FullIn(WithBarcode(kids, barcode), NewFile) ==
         Some(NewFile.(xattrs := [(DecodeValue("Barcode"), DecodeValue(barcode)),
                                  (DecodeValue("Barcode"), DecodeValue(barcode))]))
  {
    hide DecodeValue, Labelled;
    var second := Hollow("extendedattributes", "", Done);
    var kids := Hollow("extendedattributes", "", second);
    assert FullIn(second, NewFile) == Some(NewFile);
    assert Children(kids, "extendedattributes") == 1 + Children(second, "extendedattributes") == 2;
    LabelledReads(kids, barcode, NewFile);
    var x := Barcode(barcode);
    assert HeldBy(second, [x]) == [x] + [] == [x];
    assert HeldBy(kids, [x]) == [x] + [x] == [x, x];
    assert [] + [x, x] == [x, x];
  }

  lemma {:induction false} SolidIsClean(kids: Nodes)
    requires Solid(kids)
    ensures Clean(kids)
  {
    hide DecodeGeneralRef, ExtentsIn;
    match kids
    case Done =>
    case Elem(_, _, k, t) => SolidIsClean(t);
    case Hollow(_, _, t) => SolidIsClean(t);
    case Leaf(_, t) => SolidIsClean(t);
  }

  lemma FullIsClean(kids: Nodes)
    requires FullIn(kids, NewFile).Some?
    ensures Clean(kids)
  {
    FullIsSolid(kids, NewFile);
    SolidIsClean(kids);
  }
}
