/** What the parsers of one file record make of it: the full parser, and the fast ones that read only
    the name, the length, or a summary.  Everything here is stated on the tree the record's events
    stand for.  Escapes in text are taken as already resolved. */
module FileRecord {
  import opened Common
  import opened XmlEvents
  import opened RecordUid
  import TextReplacement

  datatype Extent = Extent(fileOffset: int, partition: nat, startBlock: int, byteOffset: int, byteCount: int)

  const NoExtent := Extent(0, 0, 0, 0, 0)

  datatype FileData = FileData(
    name: string, length: int, readOnly: bool, openForWrite: bool,
    creationTime: Option<string>, changeTime: Option<string>, modifyTime: Option<string>,
    accessTime: Option<string>, backupTime: Option<string>,
    fileUid: int, symlink: Option<string>, xattrs: seq<(string, string)>, extents: seq<Extent>)

  const NewFile := FileData("", 0, false, true, None, None, None, None, None, 0, None, [], [])

  /** The numbers of a summary are those of the file's first extent. */
  datatype Summary = Summary(name: string, length: int, first: Extent)

  const NoSummary := Summary("", 0, NoExtent)

  function DecodeValue(s: string): string { TextReplacement.ReplaceAll(s, "%25", "%") }

  function Lower(s: string): string {
    seq(|s|, i requires 0 <= i < |s| => if 'A' <= s[i] <= 'Z' then (s[i] as int + 32) as char else s[i])
  }

  function ParseBool(s: string, otherwise: bool): bool {
    var t := Lower(Trim(s));
    if t == "true" || t == "1" then true else if t == "false" || t == "0" then false else otherwise
  }

  function ParsePartition(s: string): nat { if Lower(Trim(s)) == "b" then 1 else 0 }

  // ----- what an element's children mean; nothing where the parser refuses the record

  /** A leaf that may stand between elements, where references are refused. */
  predicate Plain(e: Event) { !e.Decl? && !e.DocType? && !e.GeneralRef? }

  function TextIn(kids: Nodes): Option<string> { if Clean(kids) then Some(TextOf(kids)) else None }

  function ExtentField(name: string, text: string, x: Extent): Extent {
    if name == "fileoffset" then x.(fileOffset := ParsedNumber(text))
    else if name == "partition" then x.(partition := ParsePartition(text))
    else if name == "startblock" then x.(startBlock := ParsedNumber(text))
    else if name == "byteoffset" then x.(byteOffset := ParsedNumber(text))
    else if name == "bytecount" then x.(byteCount := ParsedNumber(text))
    else x
  }

  function ExtentIn(kids: Nodes, x: Extent): Option<Extent> {
    match kids
    case Done => Some(x)
    case Elem(n, _, k, t) => (match TextIn(k) case None => None case Some(s) => ExtentIn(t, ExtentField(n, s, x)))
    case Hollow(_, _, t) => ExtentIn(t, x)
    case Leaf(e, t) => if Plain(e) then ExtentIn(t, x) else None
  }

  function ExtentsIn(kids: Nodes, xs: seq<Extent>): Option<seq<Extent>> {
    match kids
    case Done => Some(xs)
    case Elem(n, _, k, t) =>
      if n == "extent" then (match ExtentIn(k, NoExtent) case None => None case Some(x) => ExtentsIn(t, xs + [x]))
      else if Clean(k) then ExtentsIn(t, xs) else None
    case Hollow(n, _, t) => ExtentsIn(t, if n == "extent" then xs + [NoExtent] else xs)
    case Leaf(e, t) => if Plain(e) then ExtentsIn(t, xs) else None
  }

  function FirstExtentIn(kids: Nodes, found: bool, x: Extent): Option<Extent> {
    match kids
    case Done => Some(x)
    case Elem(n, _, k, t) =>
      if n == "extent" && !found then (match ExtentIn(k, NoExtent) case None => None case Some(y) => FirstExtentIn(t,
        true, y.(fileOffset := x.fileOffset)))
      else if Clean(k) then FirstExtentIn(t, found, x) else None
    case Hollow(n, _, t) => FirstExtentIn(t, found || n == "extent", x)
    case Leaf(e, t) => if Plain(e) then FirstExtentIn(t, found, x) else None
  }

  function XattrIn(kids: Nodes, key: string, value: string): Option<(string, string)> {
    match kids
    case Done => Some((key, value))
    case Elem(n, _, k, t) =>
      (match TextIn(k)
       case None => None
       case Some(s) =>
         if n == "key" then XattrIn(t, DecodeValue(s), value)
         else if n == "value" then XattrIn(t, key, DecodeValue(s))
         else XattrIn(t, key, value))
    case Hollow(_, _, t) => XattrIn(t, key, value)
    case Leaf(e, t) => if Plain(e) then XattrIn(t, key, value) else None
  }

  function XattrsIn(kids: Nodes, xs: seq<(string, string)>): Option<seq<(string, string)>> {
    match kids
    case Done => Some(xs)
    case Elem(n, _, k, t) =>
      if n == "xattr" then (match XattrIn(k, "", "") case None => None case Some(x) => XattrsIn(t, xs + [x]))
      else if Clean(k) then XattrsIn(t, xs) else None
    case Hollow(n, _, t) => XattrsIn(t, if n == "xattr" then xs + [("", "")] else xs)
    case Leaf(e, t) => if Plain(e) then XattrsIn(t, xs) else None
  }

  /** One child element of the record with content. */
  function ChildIn(name: string, k: Nodes, d: FileData): Option<FileData> {
    if name == "extendedattributes"
      then (match XattrsIn(k, d.xattrs) case None => None case Some(xs) => Some(d.(xattrs := xs)))
    else if name == "extentinfo" then (match ExtentsIn(k,
                                                       d.extents) case None => None case Some(xs) => Some(d.(extents :=
                                                         xs)))
    else match TextIn(k)
         case None => None
         case Some(s) => Some(TextField(name, s, d))
  }

  datatype Field = NameField | LengthField | ReadOnlyField | OpenField | CreationField | ChangeField
    | ModifyField | AccessField | BackupField | UidField | SymlinkField | NoField

  function FieldNamed(name: string): Field {
    if name == "name" then NameField
    else if name == "length" then LengthField
    else if name == "readonly" then ReadOnlyField
    else if name == "openforwrite" then OpenField
    else if name == "creationtime" then CreationField
    else if name == "changetime" then ChangeField
    else if name == "modifytime" then ModifyField
    else if name == "accesstime" then AccessField
    else if name == "backuptime" then BackupField
    else if name == "fileuid" then UidField
    else if name == "symlink" then SymlinkField
    else NoField
  }

  function TextField(name: string, s: string, d: FileData): FileData {
    match FieldNamed(name)
    case NameField => d.(name := DecodeValue(s))
    case LengthField => d.(length := ParsedNumber(s))
    case ReadOnlyField => d.(readOnly := ParseBool(s, false))
    case OpenField => d.(openForWrite := ParseBool(s, true))
    case CreationField => d.(creationTime := Some(DecodeValue(s)))
    case ChangeField => d.(changeTime := Some(DecodeValue(s)))
    case ModifyField => d.(modifyTime := Some(DecodeValue(s)))
    case AccessField => d.(accessTime := Some(DecodeValue(s)))
    case BackupField => d.(backupTime := Some(DecodeValue(s)))
    case UidField => d.(fileUid := ParsedNumber(s))
    case SymlinkField => d.(symlink := Some(DecodeValue(s)))
    case NoField => d
  }

  function FullIn(kids: Nodes, d: FileData): Option<FileData> {
    match kids
    case Done => Some(d)
    case Elem(n, _, k, t) => (match ChildIn(n, k, d) case None => None case Some(d') => FullIn(t, d'))
    case Hollow(n, _, t) => FullIn(t, if n == "symlink" then d.(symlink := Some("")) else d)
    case Leaf(e, t) => if Plain(e) then FullIn(t, d) else None
  }

  function NameIn(kids: Nodes): Option<string> {
    match kids
    case Done => Some("")
    case Elem(n, _, k, t) =>
      if n == "name" then (match TextIn(k) case None => None case Some(s) => Some(DecodeValue(s)))
      else if Clean(k) then NameIn(t) else None
    case Hollow(n, _, t) => if n == "name" then Some("") else NameIn(t)
    case Leaf(e, t) => if Plain(e) then NameIn(t) else None
  }

  function LengthIn(kids: Nodes): Option<int> {
    match kids
    case Done => Some(0)
    case Elem(n, _, k, t) =>
      if n == "length" then (match TextIn(k) case None => None case Some(s) => Some(ParsedNumber(s)))
      else if Clean(k) then LengthIn(t) else None
    case Hollow(n, _, t) => if n == "length" then Some(0) else LengthIn(t)
    case Leaf(e, t) => if Plain(e) then LengthIn(t) else None
  }

  function SummaryIn(kids: Nodes, r: Summary): Option<Summary> {
    match kids
    case Done => Some(r)
    case Elem(n, _, k, t) =>
      if n == "name" then (match TextIn(k) case None => None case Some(s) => SummaryIn(t, r.(name := DecodeValue(s))))
      else if n == "length" then (match TextIn(k) case None => None case Some(s) => SummaryIn(t,
        r.(length := ParsedNumber(s))))
      else if n == "extentinfo" then (match FirstExtentIn(k, false,
                                                          r.first) case None => None case Some(x) => SummaryIn(t,
                                                            r.(first := x)))
      else if Clean(k) then SummaryIn(t, r) else None
    case Hollow(n, _, t) =>
      SummaryIn(t, if n == "name" then r.(name := "") else if n == "length" then r.(length := 0) else r)
    case Leaf(e, t) => if Plain(e) then SummaryIn(t, r) else None
  }

  // ----- what an accepted record says, with the element names written out

  /** Text of the last child of that name with content. */
  ghost function Said(kids: Nodes, name: string): Option<string> {
    match kids
    case Done => None
    case Elem(n, _, k, t) =>
      if Said(t, name).Some? then Said(t, name) else if n == name then Some(TextOf(k)) else None
    case Hollow(_, _, t) => Said(t, name)
    case Leaf(_, t) => Said(t, name)
  }

  /** The same, where an empty-element tag says the empty text. */
  ghost function SaidOrEmpty(kids: Nodes, name: string): Option<string> {
    match kids
    case Done => None
    case Elem(n, _, k, t) =>
      if SaidOrEmpty(t, name).Some? then SaidOrEmpty(t, name) else if n == name then Some(TextOf(k)) else None
    case Hollow(n, _, t) =>
      if SaidOrEmpty(t, name).Some? then SaidOrEmpty(t, name) else if n == name then Some("") else None
    case Leaf(_, t) => SaidOrEmpty(t, name)
  }

  ghost function Number(said: Option<string>, otherwise: int): int {
    match said case None => otherwise case Some(s) => ParsedNumber(s)
  }

  ghost function Value(said: Option<string>, otherwise: Option<string>): Option<string> {
    match said case None => otherwise case Some(s) => Some(DecodeValue(s))
  }

  ghost function Words(said: Option<string>, otherwise: string): string {
    match said case None => otherwise case Some(s) => DecodeValue(s)
  }

  ghost function Truth(said: Option<string>, otherwise: bool, unclear: bool): bool {
    match said case None => otherwise case Some(s) => ParseBool(s, unclear)
  }

  /** One extent's five numbers. */
  ghost function SaidExtent(kids: Nodes): Extent {
    Extent(Number(Said(kids, "fileoffset"), 0),
           (match Said(kids, "partition") case None => 0 case Some(s) => ParsePartition(s)),
           Number(Said(kids, "startblock"), 0), Number(Said(kids, "byteoffset"), 0), Number(Said(kids, "bytecount"), 0))
  }

  ghost function ListedExtents(kids: Nodes): seq<Extent> {
    match kids
    case Done => []
    case Elem(n, _, k, t) => (if n == "extent" then [SaidExtent(k)] else []) + ListedExtents(t)
    case Hollow(n, _, t) => (if n == "extent" then [Extent(0, 0, 0, 0, 0)] else []) + ListedExtents(t)
    case Leaf(_, t) => ListedExtents(t)
  }

  ghost function ListedXattrs(kids: Nodes): seq<(string, string)> {
    match kids
    case Done => []
    case Elem(n, _, k, t) =>
      (if n == "xattr" then [(Words(Said(k, "key"), ""), Words(Said(k, "value"), ""))] else []) + ListedXattrs(t)
    case Hollow(n, _, t) => (if n == "xattr" then [("", "")] else []) + ListedXattrs(t)
    case Leaf(_, t) => ListedXattrs(t)
  }

  /** The extents of all lists, and the attributes of all containers, one after another. */
  ghost function AllExtents(kids: Nodes): seq<Extent> {
    match kids
    case Done => []
    case Elem(n, _, k, t) => (if n == "extentinfo" then ListedExtents(k) else []) + AllExtents(t)
    case Hollow(_, _, t) => AllExtents(t)
    case Leaf(_, t) => AllExtents(t)
  }

  ghost function AllXattrs(kids: Nodes): seq<(string, string)> {
    match kids
    case Done => []
    case Elem(n, _, k, t) => (if n == "extendedattributes" then ListedXattrs(k) else []) + AllXattrs(t)
    case Hollow(_, _, t) => AllXattrs(t)
    case Leaf(_, t) => AllXattrs(t)
  }

  /** What the children say; what none of them says is as in `d`. */
  ghost function DescribedOver(kids: Nodes, d: FileData): FileData {
    FileData(
      Words(Said(kids, "name"), d.name),
      Number(Said(kids, "length"), d.length),
      Truth(Said(kids, "readonly"), d.readOnly, false),
      Truth(Said(kids, "openforwrite"), d.openForWrite, true),
      Value(Said(kids, "creationtime"), d.creationTime),
      Value(Said(kids, "changetime"), d.changeTime),
      Value(Said(kids, "modifytime"), d.modifyTime),
      Value(Said(kids, "accesstime"), d.accessTime),
      Value(Said(kids, "backuptime"), d.backupTime),
      Number(Said(kids, "fileuid"), d.fileUid),
      Value(SaidOrEmpty(kids, "symlink"), d.symlink),
      d.xattrs + AllXattrs(kids),
      d.extents + AllExtents(kids))
  }

  /** The file a record's children describe. */
  ghost function Described(kids: Nodes): FileData {
    DescribedOver(kids, FileData("", 0, false, true, None, None, None, None, None, 0, None, [], []))
  }

  /** Between the elements of an extent, an attribute, their lists and the record itself no reference may stand;
      inside texts, and inside what is skipped, only what may stand in a text. */
  predicate ItemReadable(kids: Nodes) {
    match kids
    case Done => true
    case Elem(_, _, k, t) => Clean(k) && ItemReadable(t)
    case Hollow(_, _, t) => ItemReadable(t)
    case Leaf(e, t) => !e.Decl? && !e.DocType? && !e.GeneralRef? && ItemReadable(t)
  }

  predicate ListReadable(kids: Nodes, item: string) {
    match kids
    case Done => true
    case Elem(n, _, k, t) => (if n == item then ItemReadable(k) else Clean(k)) && ListReadable(t, item)
    case Hollow(_, _, t) => ListReadable(t, item)
    case Leaf(e, t) => !e.Decl? && !e.DocType? && !e.GeneralRef? && ListReadable(t, item)
  }

  predicate Readable(kids: Nodes) {
    match kids
    case Done => true
    case Elem(n, _, k, t) =>
      (if n == "extentinfo" then ListReadable(k, "extent")
       else if n == "extendedattributes" then ListReadable(k, "xattr")
       else Clean(k)) && Readable(t)
    case Hollow(_, _, t) => Readable(t)
    case Leaf(e, t) => !e.Decl? && !e.DocType? && !e.GeneralRef? && Readable(t)
  }

  ghost function ExtentOver(kids: Nodes, x: Extent): Extent {
    Extent(Number(Said(kids, "fileoffset"), x.fileOffset),
           (match Said(kids, "partition") case None => x.partition case Some(s) => ParsePartition(s)),
           Number(Said(kids, "startblock"), x.startBlock), Number(Said(kids, "byteoffset"), x.byteOffset),
           Number(Said(kids, "bytecount"), x.byteCount))
  }

  lemma {:induction false} ExtentSaid(kids: Nodes, x: Extent)
    ensures ExtentIn(kids, x) == if ItemReadable(kids) then Some(ExtentOver(kids, x)) else None
  {
    hide ParsedNumber, ParsePartition, TextOf, Clean;
    match kids
    case Done =>
    case Elem(n, _, k, t) => if Clean(k) { ExtentSaid(t, ExtentField(n, TextOf(k), x)); }
    case Hollow(_, _, t) => ExtentSaid(t, x);
    case Leaf(_, t) => ExtentSaid(t, x);
  }

  lemma {:induction false} ExtentsSaid(kids: Nodes, xs: seq<Extent>)
    ensures ExtentsIn(kids, xs) == if ListReadable(kids, "extent") then Some(xs + ListedExtents(kids)) else None
  {
    hide ExtentIn, Clean, SaidExtent;
    match kids
    case Done => assert xs + [] == xs;
    case Elem(n, _, k, t) =>
      if n == "extent" {
        WholeExtent(k);
        if ItemReadable(k) {
          ExtentsSaid(t, xs + [SaidExtent(k)]);
          assert xs + ([SaidExtent(k)] + ListedExtents(t)) == (xs + [SaidExtent(k)]) + ListedExtents(t);
        }
      } else if Clean(k) {
        ExtentsSaid(t, xs);
        assert [] + ListedExtents(t) == ListedExtents(t);
      }
    case Hollow(n, _, t) =>
      ExtentsSaid(t, if n == "extent" then xs + [NoExtent] else xs);
      if n == "extent" {
        assert xs + ([NoExtent] + ListedExtents(t)) == (xs + [NoExtent]) + ListedExtents(t);
      } else {
        assert [] + ListedExtents(t) == ListedExtents(t);
      }
    case Leaf(_, t) => ExtentsSaid(t, xs);
  }

  lemma WholeExtent(k: Nodes)
    ensures ExtentIn(k, NoExtent) == if ItemReadable(k) then Some(SaidExtent(k)) else None
  {
    hide ParsedNumber, ParsePartition;
    ExtentSaid(k, NoExtent);
  }

  lemma {:induction false} XattrSaid(kids: Nodes, key: string, value: string)
    ensures XattrIn(kids, key, value) ==
      if ItemReadable(kids) then Some((Words(Said(kids, "key"), key), Words(Said(kids, "value"), value))) else None
  {
    hide DecodeValue, TextOf, Clean;
    match kids
    case Done =>
    case Elem(n, _, k, t) =>
      if Clean(k) {
        var s := DecodeValue(TextOf(k));
        XattrSaid(t, if n == "key" then s else key, if n == "value" then s else value);
      }
    case Hollow(_, _, t) => XattrSaid(t, key, value);
    case Leaf(_, t) => XattrSaid(t, key, value);
  }

  lemma {:induction false} XattrsSaid(kids: Nodes, xs: seq<(string, string)>)
    ensures XattrsIn(kids, xs) == if ListReadable(kids, "xattr") then Some(xs + ListedXattrs(kids)) else None
  {
    hide XattrIn, Clean, Said, Words;
    match kids
    case Done => assert xs + [] == xs;
    case Elem(n, _, k, t) =>
      if n == "xattr" {
        XattrSaid(k, "", "");
        if ItemReadable(k) {
          var x := (Words(Said(k, "key"), ""), Words(Said(k, "value"), ""));
          XattrsSaid(t, xs + [x]);
          assert xs + ([x] + ListedXattrs(t)) == (xs + [x]) + ListedXattrs(t);
        }
      } else if Clean(k) {
        XattrsSaid(t, xs);
        assert [] + ListedXattrs(t) == ListedXattrs(t);
      }
    case Hollow(n, _, t) =>
      XattrsSaid(t, if n == "xattr" then xs + [("", "")] else xs);
      if n == "xattr" {
        assert xs + ([("", "")] + ListedXattrs(t)) == (xs + [("", "")]) + ListedXattrs(t);
      } else {
        assert [] + ListedXattrs(t) == ListedXattrs(t);
      }
    case Leaf(_, t) => XattrsSaid(t, xs);
  }

  lemma SaidNext(n: string, a: string, k: Nodes, t: Nodes, name: string)
    ensures Said(Elem(n, "", k, Done), name) == (if n == name then Some(TextOf(k)) else None)
    ensures SaidOrEmpty(Elem(n, "", k, Done), name) == Said(Elem(n, "", k, Done), name)
    ensures Said(Elem(n, a, k, t), name) ==
            if Said(t, name).Some? then Said(t, name) else Said(Elem(n, "", k, Done), name)
    ensures SaidOrEmpty(Elem(n, a, k, t), name) ==
            if SaidOrEmpty(t, name).Some? then SaidOrEmpty(t, name) else Said(Elem(n, "", k, Done), name)
  {
    hide TextOf;
  }

  lemma FieldsNamed0(n: string)
    ensures FieldNamed(n) == NameField <==> n == "name"
    ensures FieldNamed(n) == LengthField <==> n == "length"
    ensures FieldNamed(n) == ReadOnlyField <==> n == "readonly"
    ensures FieldNamed(n) == OpenField <==> n == "openforwrite"
  {
  }

  lemma FieldsNamed1(n: string)
    ensures FieldNamed(n) == CreationField <==> n == "creationtime"
    ensures FieldNamed(n) == ChangeField <==> n == "changetime"
    ensures FieldNamed(n) == ModifyField <==> n == "modifytime"
  {
  }

  lemma FieldsNamed2(n: string)
    ensures FieldNamed(n) == AccessField <==> n == "accesstime"
    ensures FieldNamed(n) == BackupField <==> n == "backuptime"
    ensures FieldNamed(n) == UidField <==> n == "fileuid"
    ensures FieldNamed(n) == SymlinkField <==> n == "symlink"
  {
  }

  /** Text under a name changes the field of that name, and no other. */
  lemma TextSays(n: string, s: string, d: FileData)
    ensures var f := TextField(n, s, d);
      && f.name == (if n == "name" then DecodeValue(s) else d.name)
      && f.length == (if n == "length" then ParsedNumber(s) else d.length)
      && f.readOnly == (if n == "readonly" then ParseBool(s, false) else d.readOnly)
      && f.openForWrite == (if n == "openforwrite" then ParseBool(s, true) else d.openForWrite)
      && f.creationTime == (if n == "creationtime" then Some(DecodeValue(s)) else d.creationTime)
      && f.changeTime == (if n == "changetime" then Some(DecodeValue(s)) else d.changeTime)
      && f.modifyTime == (if n == "modifytime" then Some(DecodeValue(s)) else d.modifyTime)
      && f.accessTime == (if n == "accesstime" then Some(DecodeValue(s)) else d.accessTime)
      && f.backupTime == (if n == "backuptime" then Some(DecodeValue(s)) else d.backupTime)
      && f.fileUid == (if n == "fileuid" then ParsedNumber(s) else d.fileUid)
      && f.symlink == (if n == "symlink" then Some(DecodeValue(s)) else d.symlink)
      && f.xattrs == d.xattrs && f.extents == d.extents
  {
    hide DecodeValue, ParsedNumber, ParseBool, FieldNamed;
    FieldsNamed0(n);
    FieldsNamed1(n);
    FieldsNamed2(n);
  }

  /** One child with content: its own field changes, and no other. */
  lemma ChildSays(n: string, k: Nodes, d: FileData)
    ensures var one := Elem(n, "", k, Done);
      ChildIn(n, k, d) == if Readable(one) then Some(DescribedOver(one, d)) else None
  {
    hide ParsedNumber, DecodeValue, ParseBool, TextOf, Clean, XattrsIn, ExtentsIn, ListReadable, ListedExtents,
         ListedXattrs, Said, SaidOrEmpty, AllExtents, AllXattrs, Readable, TextField;
    ReadableOne(n, k);
    ExtentsSaid(k, d.extents);
    XattrsSaid(k, d.xattrs);
    OneChildList(n, k, d);
    TextSays(n, TextOf(k), d);
    SaidNext(n, "", k, Done, "name");
    SaidNext(n, "", k, Done, "length");
    SaidNext(n, "", k, Done, "readonly");
    SaidNext(n, "", k, Done, "openforwrite");
    SaidNext(n, "", k, Done, "creationtime");
    SaidNext(n, "", k, Done, "changetime");
    SaidNext(n, "", k, Done, "modifytime");
    SaidNext(n, "", k, Done, "accesstime");
    SaidNext(n, "", k, Done, "backuptime");
    SaidNext(n, "", k, Done, "fileuid");
    SaidNext(n, "", k, Done, "symlink");
    if n == "extentinfo" {
    } else if n == "extendedattributes" {
    } else {
    }
  }

  lemma ReadableOne(n: string, k: Nodes)
    ensures Readable(Elem(n, "", k, Done)) <==>
      if n == "extentinfo" then ListReadable(k, "extent")
      else if n == "extendedattributes" then ListReadable(k, "xattr")
      else Clean(k)
  {
    hide ListReadable, Clean;
  }

  lemma OneChildList(n: string, k: Nodes, d: FileData)
    ensures AllExtents(Elem(n, "", k, Done)) == if n == "extentinfo" then ListedExtents(k) else []
    ensures AllXattrs(Elem(n, "", k, Done)) == if n == "extendedattributes" then ListedXattrs(k) else []
    ensures d.extents + [] == d.extents && d.xattrs + [] == d.xattrs
  {
    hide ListedExtents, ListedXattrs;
    assert ListedExtents(k) + [] == ListedExtents(k) && ListedXattrs(k) + [] == ListedXattrs(k);
  }

  /** The first child, then the others, which are believed before it. */
  lemma DescribedNext(n: string, a: string, k: Nodes, t: Nodes, d: FileData)
    ensures DescribedOver(Elem(n, a, k, t), d) == DescribedOver(t, DescribedOver(Elem(n, "", k, Done), d))
  {
    hide ParsedNumber, DecodeValue, ParseBool, TextOf, Said, SaidOrEmpty, AllExtents, AllXattrs;
    ListsNext(n, a, k, t, d);
    SaidNext(n, a, k, t, "name");
    SaidNext(n, a, k, t, "length");
    SaidNext(n, a, k, t, "readonly");
    SaidNext(n, a, k, t, "openforwrite");
    SaidNext(n, a, k, t, "creationtime");
    SaidNext(n, a, k, t, "changetime");
    SaidNext(n, a, k, t, "modifytime");
    SaidNext(n, a, k, t, "accesstime");
    SaidNext(n, a, k, t, "backuptime");
    SaidNext(n, a, k, t, "fileuid");
    SaidNext(n, a, k, t, "symlink");
  }

  lemma ListsNext(n: string, a: string, k: Nodes, t: Nodes, d: FileData)
    ensures d.extents + AllExtents(Elem(n, a, k, t)) == (d.extents + AllExtents(Elem(n, "", k, Done))) + AllExtents(t)
    ensures d.xattrs + AllXattrs(Elem(n, a, k, t)) == (d.xattrs + AllXattrs(Elem(n, "", k, Done))) + AllXattrs(t)
  {
    hide ListedExtents, ListedXattrs;
    OneChildList(n, k, d);
    var e := if n == "extentinfo" then ListedExtents(k) else [];
    var x := if n == "extendedattributes" then ListedXattrs(k) else [];
    assert AllExtents(Elem(n, a, k, t)) == e + AllExtents(t) && AllXattrs(Elem(n, a, k, t)) == x + AllXattrs(t);
  }

  lemma DescribedEmpty(n: string, a: string, t: Nodes, d: FileData)
    ensures DescribedOver(Hollow(n, a, t), d) == DescribedOver(t, if n == "symlink" then d.(symlink := Some("")) else d)
  {
    hide ParsedNumber, DecodeValue, ParseBool, TextOf;
    EmptyText();
  }

  lemma DescribedDone(d: FileData)
    ensures DescribedOver(Done, d) == d
  {
    assert d.extents + [] == d.extents && d.xattrs + [] == d.xattrs;
  }

  /** The full parser accepts exactly the readable records, and what it makes of one is what its children say. */
  lemma {:induction false} FullDescribes(kids: Nodes, d: FileData)
    ensures FullIn(kids, d) == if Readable(kids) then Some(DescribedOver(kids, d)) else None
  {
    hide ChildIn, DescribedOver, Clean, ListReadable;
    match kids
    case Done => DescribedDone(d);
    case Elem(n, a, k, t) =>
      ChildSays(n, k, d);
      if Readable(Elem(n, "", k, Done)) {
        FullDescribes(t, DescribedOver(Elem(n, "", k, Done), d));
        DescribedNext(n, a, k, t, d);
      }
    case Hollow(n, a, t) =>
      FullDescribes(t, if n == "symlink" then d.(symlink := Some("")) else d);
      DescribedEmpty(n, a, t, d);
    case Leaf(e, t) =>
      FullDescribes(t, d);
      DescribedLeaf(e, t, d);
  }

  lemma DescribedLeaf(e: Event, t: Nodes, d: FileData)
    ensures DescribedOver(Leaf(e, t), d) == DescribedOver(t, d)
  {
  }

  /** The record's element, whichever of the two forms it has. */
  lemma FullIs(doc: Nodes)
    ensures Full(doc) == match RootOf(doc)
                         case NoRoot => None
                         case HollowRoot => Some(Described(Done))
                         case RootWith(kids) => if Readable(kids) then Some(Described(kids)) else None
  {
    hide FullIn, DescribedOver, Readable;
    DescribedDone(NewFile);
    match RootOf(doc)
    case RootWith(kids) => FullDescribes(kids, NewFile);
    case _ =>
  }

  // ----- which of several children of one name each parser believes

  function Children(kids: Nodes, name: string): nat {
    match kids
    case Done => 0
    case Elem(n, _, _, t) => (if n == name then 1 else 0) + Children(t, name)
    case Hollow(n, _, t) => (if n == name then 1 else 0) + Children(t, name)
    case Leaf(_, t) => Children(t, name)
  }

  /** Text of the first child of that name. */
  function FirstText(kids: Nodes, name: string): string {
    match kids
    case Done => ""
    case Elem(n, _, k, t) => if n == name then TextOf(k) else FirstText(t, name)
    case Hollow(n, _, t) => if n == name then "" else FirstText(t, name)
    case Leaf(_, t) => FirstText(t, name)
  }

  /** Text of the last child of that name which is not an empty-element tag. */
  function LastText(kids: Nodes, name: string, before: string): string {
    match kids
    case Done => before
    case Elem(n, _, k, t) => LastText(t, name, if n == name then TextOf(k) else before)
    case Hollow(_, _, t) => LastText(t, name, before)
    case Leaf(_, t) => LastText(t, name, before)
  }

  /** Text of the last child of that name, an empty-element tag counting as empty text. */
  function LatestText(kids: Nodes, name: string, before: string): string {
    match kids
    case Done => before
    case Elem(n, _, k, t) => LatestText(t, name, if n == name then TextOf(k) else before)
    case Hollow(n, _, t) => LatestText(t, name, if n == name then "" else before)
    case Leaf(_, t) => LatestText(t, name, before)
  }

  lemma {:induction false} ExtentClean(k: Nodes, x: Extent)
    requires ExtentIn(k, x).Some?
    ensures Clean(k)
  {
    match k
    case Done =>
    case Elem(n, _, kk, t) => ExtentClean(t, ExtentField(n, TextOf(kk), x));
    case Hollow(_, _, t) => ExtentClean(t, x);
    case Leaf(_, t) => ExtentClean(t, x);
  }

  lemma {:induction false} ExtentsClean(k: Nodes, xs: seq<Extent>)
    requires ExtentsIn(k, xs).Some?
    ensures Clean(k)
  {
    match k
    case Done =>
    case Elem(n, _, kk, t) =>
      if n == "extent" {
        ExtentClean(kk, NoExtent);
        ExtentsClean(t, xs + [ExtentIn(kk, NoExtent).value]);
      } else {
        ExtentsClean(t, xs);
      }
    case Hollow(n, _, t) => ExtentsClean(t, if n == "extent" then xs + [NoExtent] else xs);
    case Leaf(_, t) => ExtentsClean(t, xs);
  }

  lemma {:induction false} XattrClean(k: Nodes, key: string, value: string)
    requires XattrIn(k, key, value).Some?
    ensures Clean(k)
  {
    hide DecodeValue;
    match k
    case Done =>
    case Elem(n, _, kk, t) =>
      var s := DecodeValue(TextOf(kk));
      XattrClean(t, if n == "key" then s else key, if n == "value" then s else value);
    case Hollow(_, _, t) => XattrClean(t, key, value);
    case Leaf(_, t) => XattrClean(t, key, value);
  }

  lemma {:induction false} XattrsClean(k: Nodes, xs: seq<(string, string)>)
    requires XattrsIn(k, xs).Some?
    ensures Clean(k)
  {
    match k
    case Done =>
    case Elem(n, _, kk, t) =>
      if n == "xattr" {
        XattrClean(kk, "", "");
        XattrsClean(t, xs + [XattrIn(kk, "", "").value]);
      } else {
        XattrsClean(t, xs);
      }
    case Hollow(n, _, t) => XattrsClean(t, if n == "xattr" then xs + [("", "")] else xs);
    case Leaf(_, t) => XattrsClean(t, xs);
  }

  /** The full parser refuses whatever a fast one would refuse to skip. */
  lemma ChildClean(name: string, k: Nodes, d: FileData)
    requires ChildIn(name, k, d).Some?
    ensures Clean(k)
  {
    if name == "extendedattributes" {
      XattrsClean(k, d.xattrs);
    } else if name == "extentinfo" {
      ExtentsClean(k, d.extents);
    }
  }

  lemma ChildReads(n: string, k: Nodes, d: FileData)
    requires ChildIn(n, k, d).Some?
    ensures var d' := ChildIn(n, k, d).value;
      && d'.name == (if n == "name" then DecodeValue(TextOf(k)) else d.name)
      && d'.length == (if n == "length" then ParsedNumber(TextOf(k)) else d.length)
      && (if n == "extentinfo" then ExtentsIn(k, d.extents) == Some(d'.extents) else d'.extents == d.extents)
  {
    hide DecodeValue, ParsedNumber, TextField, TextOf, Clean, ExtentsIn, XattrsIn;
    TextSays(n, TextOf(k), d);
    if n == "extendedattributes" {
    } else if n == "extentinfo" {
    } else {
    }
  }

  lemma {:induction false} FullReadsLast(kids: Nodes, d: FileData, name: string, length: string)
    requires FullIn(kids, d).Some? && d.name == DecodeValue(name) && d.length == ParsedNumber(length)
    ensures FullIn(kids, d).value.name == DecodeValue(LastText(kids, "name", name))
    ensures FullIn(kids, d).value.length == ParsedNumber(LastText(kids, "length", length))
  {
    hide DecodeValue, ParsedNumber, ChildIn, ExtentsIn, TextOf;
    match kids
    case Done =>
    case Elem(n, _, k, t) =>
      ChildReads(n, k, d);
      var name' := if n == "name" then TextOf(k) else name;
      var length' := if n == "length" then TextOf(k) else length;
      FullReadsLast(t, ChildIn(n, k, d).value, name', length');
    case Hollow(n, _, t) => FullReadsLast(t, if n == "symlink" then d.(symlink := Some("")) else d, name, length);
    case Leaf(_, t) => FullReadsLast(t, d, name, length);
  }

  lemma {:induction false} FastReadsFirst(kids: Nodes)
    requires Solid(kids)
    ensures NameIn(kids) == Some(DecodeValue(FirstText(kids, "name")))
    ensures LengthIn(kids) == Some(ParsedNumber(FirstText(kids, "length")))
  {
    hide DecodeValue, ParsedNumber;
    EmptyText();
    match kids
    case Done =>
    case Elem(_, _, _, t) => FastReadsFirst(t);
    case Hollow(_, _, t) => FastReadsFirst(t);
    case Leaf(_, t) => FastReadsFirst(t);
  }

  lemma EmptyText()
    ensures DecodeValue("") == "" && ParsedNumber("") == 0
  {
  }

  lemma {:induction false} SummaryReadsLatest(kids: Nodes, r: Summary, name: string, length: string)
    requires Solid(kids) && r.name == DecodeValue(name) && r.length == ParsedNumber(length)
    ensures SummaryIn(kids, r).Some?
    ensures SummaryIn(kids, r).value.name == DecodeValue(LatestText(kids, "name", name))
    ensures SummaryIn(kids, r).value.length == ParsedNumber(LatestText(kids, "length", length))
  {
    hide DecodeValue, ParsedNumber, FirstExtentIn, ExtentsIn;
    EmptyText();
    match kids
    case Done =>
    case Elem(n, _, k, t) =>
      var name' := if n == "name" then TextOf(k) else name;
      var length' := if n == "length" then TextOf(k) else length;
      if n == "extentinfo" {
        FirstOfExtents(k, [], false, r.first);
        SummaryReadsLatest(t, r.(first := FirstExtentIn(k, false, r.first).value), name, length);
      } else {
        SummaryReadsLatest(t, r.(name := DecodeValue(name'), length := ParsedNumber(length')), name', length');
      }
    case Hollow(n, _, t) =>
      var name' := if n == "name" then "" else name;
      var length' := if n == "length" then "" else length;
      SummaryReadsLatest(t, r.(name := DecodeValue(name'), length := ParsedNumber(length')), name', length');
    case Leaf(_, t) => SummaryReadsLatest(t, r, name, length);
  }

  /** The record the full parser accepts: no refused leaf anywhere, references only where text is read. */
  predicate Solid(kids: Nodes) {
    match kids
    case Done => true
    case Elem(n, _, k, t) => Clean(k) && (n == "extentinfo" ==> ExtentsIn(k, []).Some?) && Solid(t)
    case Hollow(_, _, t) => Solid(t)
    case Leaf(e, t) => Plain(e) && Solid(t)
  }

  lemma {:induction false} FullIsSolid(kids: Nodes, d: FileData)
    requires FullIn(kids, d).Some?
    ensures Solid(kids)
  {
    hide TextField, XattrsIn, ExtentsIn, Clean;
    match kids
    case Done =>
    case Elem(n, _, k, t) =>
      ChildClean(n, k, d);
      if n == "extentinfo" { ExtentsAppend(k, d.extents, []); }
      FullIsSolid(t, ChildIn(n, k, d).value);
    case Hollow(n, _, t) => FullIsSolid(t, if n == "symlink" then d.(symlink := Some("")) else d);
    case Leaf(_, t) => FullIsSolid(t, d);
  }

  /** What was collected before does not matter to what is collected next. */
  lemma {:induction false} ExtentsAppend(k: Nodes, xs: seq<Extent>, ys: seq<Extent>)
    requires ExtentsIn(k, xs).Some?
    ensures ExtentsIn(k, ys).Some?
    ensures |xs| <= |ExtentsIn(k, xs).value| && ExtentsIn(k, xs).value[..|xs|] == xs
    ensures |ys| <= |ExtentsIn(k, ys).value|
    ensures ExtentsIn(k, xs).value[|xs|..] == ExtentsIn(k, ys).value[|ys|..]
    decreases k, 0
  {
    hide Clean, ExtentIn;
    match k
    case Done =>
    case Elem(n, _, kk, t) =>
      if n == "extent" {
        ExtentsGrow(t, ExtentIn(kk, NoExtent).value, xs, ys);
      } else {
        ExtentsAppend(t, xs, ys);
      }
    case Hollow(n, _, t) =>
      if n == "extent" {
        ExtentsGrow(t, NoExtent, xs, ys);
      } else {
        ExtentsAppend(t, xs, ys);
      }
    case Leaf(_, t) => ExtentsAppend(t, xs, ys);
  }

  lemma {:induction false} ExtentsGrow(t: Nodes, x: Extent, xs: seq<Extent>, ys: seq<Extent>)
    requires ExtentsIn(t, xs + [x]).Some?
    ensures ExtentsIn(t, ys + [x]).Some?
    ensures var r, s := ExtentsIn(t, xs + [x]).value, ExtentsIn(t, ys + [x]).value;
            |xs| < |r| && r[..|xs|] == xs && |ys| < |s| && r[|xs|..] == s[|ys|..]
    decreases t, 1
  {
    hide Clean, ExtentIn, ExtentsIn;
    ExtentsAppend(t, xs + [x], ys + [x]);
    ExtentsAppend(t, ys + [x], xs + [x]);
    var r, s := ExtentsIn(t, xs + [x]).value, ExtentsIn(t, ys + [x]).value;
    assert r[..|xs|] == r[..|xs| + 1][..|xs|];
    assert r[|xs|..] == [r[..|xs| + 1][|xs|]] + r[|xs| + 1..];
    assert s[|ys|..] == [s[..|ys| + 1][|ys|]] + s[|ys| + 1..];
  }

  /** The first extent of a list; an empty-element tag is an extent of zeros. */
  function ListFirst(k: Nodes): Option<Extent> {
    match k
    case Done => None
    case Elem(n, _, kk, t) => if n == "extent" then ExtentIn(kk, NoExtent) else ListFirst(t)
    case Hollow(n, _, t) => if n == "extent" then Some(NoExtent) else ListFirst(t)
    case Leaf(_, t) => ListFirst(t)
  }

  /** What a summary takes from a list: its first extent, unless that is an empty-element tag. */
  function ListRead(k: Nodes, before: Extent): Extent {
    match k
    case Done => before
    case Elem(n, _, kk, t) =>
      if n == "extent" then (match ExtentIn(kk,
                                            NoExtent) case None => before case Some(x) => x.(fileOffset :=
                                              before.fileOffset))
      else ListRead(t, before)
    case Hollow(n, _, t) => if n == "extent" then before else ListRead(t, before)
    case Leaf(_, t) => ListRead(t, before)
  }

  /** The first extent of the first list that has one. */
  function FirstListed(kids: Nodes): Extent {
    match kids
    case Done => NoExtent
    case Elem(n, _, k, t) =>
      if n == "extentinfo" && ListFirst(k).Some? then ListFirst(k).value.(fileOffset := 0) else FirstListed(t)
    case Hollow(_, _, t) => FirstListed(t)
    case Leaf(_, t) => FirstListed(t)
  }

  /** The first extent of the last list that starts with one that is not an empty-element tag. */
  function LastListed(kids: Nodes, before: Extent): Extent {
    match kids
    case Done => before
    case Elem(n, _, k, t) => LastListed(t, if n == "extentinfo" then ListRead(k, before) else before)
    case Hollow(_, _, t) => LastListed(t, before)
    case Leaf(_, t) => LastListed(t, before)
  }

  /** The first extent is all a summary needs, and reading it never refuses what the full parser reads. */
  lemma {:induction false} FirstOfExtents(k: Nodes, xs: seq<Extent>, found: bool, x: Extent)
    requires ExtentsIn(k, xs).Some?
    ensures FirstExtentIn(k, found, x) == Some(if found then x else ListRead(k, x))
    ensures var all := ExtentsIn(k, xs).value;
      |xs| <= |all| && all[..|xs|] == xs
      && (ListFirst(k) == if |xs| == |all| then None else Some(all[|xs|]))
  {
    hide ExtentIn, Clean;
    match k
    case Done =>
    case Elem(n, _, kk, t) =>
      if n == "extent" {
        var y := ExtentIn(kk, NoExtent).value;
        ExtentClean(kk, NoExtent);
        ExtentsAppend(t, xs + [y], xs + [y]);
        FirstOfExtents(t, xs + [y], true, if found then x else y.(fileOffset := x.fileOffset));
        StartsWith(ExtentsIn(t, xs + [y]).value, xs, y);
      } else {
        FirstOfExtents(t, xs, found, x);
      }
    case Hollow(n, _, t) =>
      var ys := if n == "extent" then xs + [NoExtent] else xs;
      FirstOfExtents(t, ys, found || n == "extent", x);
      if n == "extent" { StartsWith(ExtentsIn(t, ys).value, xs, NoExtent); }
    case Leaf(_, t) => FirstOfExtents(t, xs, found, x);
  }

  lemma StartsWith(all: seq<Extent>, xs: seq<Extent>, y: Extent)
    requires |xs| + 1 <= |all| && all[..|xs| + 1] == xs + [y]
    ensures all[..|xs|] == xs && all[|xs|] == y
  {
    assert all[..|xs|] == all[..|xs| + 1][..|xs|];
    assert all[|xs|] == all[..|xs| + 1][|xs|];
  }

  lemma {:induction false} SummaryFirstExtent(kids: Nodes, d: FileData, r: Summary)
    requires FullIn(kids, d).Some? && SummaryIn(kids, r).Some?
    ensures SummaryIn(kids, r).value.first == LastListed(kids, r.first)
    ensures d.extents == [] ==> FirstExtent(FullIn(kids, d).value.extents) == FirstListed(kids)
    ensures d.extents != [] ==> FullIn(kids, d).value.extents != [] && FullIn(kids, d).value.extents[0] == d.extents[0]
  {
    hide DecodeValue, ParsedNumber, ChildIn, TextOf, Clean, ExtentsIn, FirstExtentIn, ListFirst, ListRead;
    match kids
    case Done =>
    case Elem(n, _, k, t) =>
      ChildReads(n, k, d);
      var d' := ChildIn(n, k, d).value;
      if n == "extentinfo" {
        FirstOfExtents(k, d.extents, false, r.first);
        if d.extents != [] { assert d'.extents[0] == d'.extents[..|d.extents|][0]; }
        SummaryFirstExtent(t, d', r.(first := FirstExtentIn(k, false, r.first).value));
      } else {
        var s := TextOf(k);
        SummaryFirstExtent(t, d', if n == "name" then r.(name := DecodeValue(s))
                                  else if n == "length" then r.(length := ParsedNumber(s)) else r);
      }
    case Hollow(n, _, t) =>
      SummaryFirstExtent(t, if n == "symlink" then d.(symlink := Some("")) else d,
        if n == "name" then r.(name := "") else if n == "length" then r.(length := 0) else r);
    case Leaf(_, t) => SummaryFirstExtent(t, d, r);
  }

  function FirstExtent(extents: seq<Extent>): Extent {
    if extents == [] then NoExtent else extents[0].(fileOffset := 0)
  }

  lemma {:induction false} OneList(kids: Nodes, before: Extent)
    ensures Children(kids, "extentinfo") == 0 ==> FirstListed(kids) == NoExtent && LastListed(kids, before) == before
    ensures Children(kids, "extentinfo") <= 1 ==> FirstListed(kids) == LastListed(kids, NoExtent)
  {
    hide ListFirst, ListRead;
    match kids
    case Done =>
    case Elem(n, _, k, t) =>
      if n == "extentinfo" {
        ListReadIs(k);
        OneList(t, ListRead(k, NoExtent));
        OneList(t, ListRead(k, before));
      } else {
        OneList(t, before);
      }
    case Hollow(_, _, t) => OneList(t, before);
    case Leaf(_, t) => OneList(t, before);
  }

  lemma {:induction false} ListReadIs(k: Nodes)
    ensures ListRead(k, NoExtent) == match ListFirst(k) case None => NoExtent case Some(x) => x.(fileOffset := 0)
  {
    hide ExtentIn;
    match k
    case Done =>
    case Elem(_, _, _, t) => ListReadIs(t);
    case Hollow(_, _, t) => ListReadIs(t);
    case Leaf(_, t) => ListReadIs(t);
  }

  lemma {:induction false} OneChild(kids: Nodes, name: string, before: string)
    ensures Children(kids, name) == 0 ==>
            LastText(kids, name, before) == before && LatestText(kids, name, before) == before
    ensures Children(kids, name) == 0 ==> FirstText(kids, name) == ""
    ensures Children(kids, name) <= 1 ==>
            FirstText(kids, name) == LastText(kids, name, "") == LatestText(kids, name, "")
  {
    hide TextOf;
    match kids
    case Done =>
    case Elem(n, _, k, t) =>
      OneChild(t, name, if n == name then TextOf(k) else before);
    case Hollow(n, _, t) => OneChild(t, name, if n == name then "" else before); OneChild(t, name, before);
    case Leaf(_, t) => OneChild(t, name, before);
  }

  /** Whatever the full parser accepts the fast ones accept too.  With no name, length or extent list
      repeated they report exactly the fields the full parser reports.  In general the full parser
      believes the last child with content and the first extent of all; the name and length parsers
      believe the first child, and a summary the last child, cleared by an empty tag, and the first
      extent of the last list: each agrees just when its choice says the same. */
  lemma FastParsersAgree(kids: Nodes)
    requires FullIn(kids, NewFile).Some?
    ensures NameIn(kids).Some? && LengthIn(kids).Some? && SummaryIn(kids, NoSummary).Some?
    ensures var full, s := FullIn(kids, NewFile).value, SummaryIn(kids, NoSummary).value;
      && (Children(kids, "name") <= 1 ==> NameIn(kids).value == full.name == s.name)
      && (Children(kids, "length") <= 1 ==> LengthIn(kids).value == full.length == s.length)
      && (Children(kids, "extentinfo") <= 1 ==> s.first == FirstExtent(full.extents))
      && (NameIn(kids).value == full.name <==>
          DecodeValue(FirstText(kids, "name")) == DecodeValue(LastText(kids, "name", "")))
      && (LengthIn(kids).value == full.length <==>
          ParsedNumber(FirstText(kids, "length")) == ParsedNumber(LastText(kids, "length", "")))
      && (s.name == full.name <==>
          DecodeValue(LatestText(kids, "name", "")) == DecodeValue(LastText(kids, "name", "")))
      && (s.length == full.length <==>
          ParsedNumber(LatestText(kids, "length", "")) == ParsedNumber(LastText(kids, "length", "")))
      && (s.first == FirstExtent(full.extents) <==> LastListed(kids, NoExtent) == FirstListed(kids))
  {
    hide DecodeValue, ParsedNumber, FullIn, NameIn, LengthIn, SummaryIn;
    EmptyText();
    FullIsSolid(kids, NewFile);
    FastReadsFirst(kids);
    FullReadsLast(kids, NewFile, "", "");
    SummaryReadsLatest(kids, NoSummary, "", "");
    SummaryFirstExtent(kids, NewFile, NoSummary);
    OneChild(kids, "name", "");
    OneChild(kids, "length", "");
    OneList(kids, NoExtent);
  }

  /** A record with two extent lists: the full parser's first extent is the first list's, the
      summary's the second's. */
  lemma TwoListsExample()
    ensures var list := (block: string) =>
        Elem("extent", "", Elem("startblock", "", Leaf(Text(block), Done), Done), Done);
      var kids := Elem("extentinfo", "", list("7"), Elem("extentinfo", "", list("9"), Done));
      && FullIn(kids, NewFile).Some? && FirstExtent(FullIn(kids, NewFile).value.extents) == NoExtent.(startBlock := 7)
      && SummaryIn(kids, NoSummary).Some? && SummaryIn(kids, NoSummary).value.first == NoExtent.(startBlock := 9)
  {
    hide ParsedNumber;
    PrintedNumberParses(7);
    PrintedNumberParses(9);
    assert NatToString(7) == "7" && NatToString(9) == "9";
    var seven := Elem("extent", "", Elem("startblock", "", Leaf(Text("7"), Done), Done), Done);
    var nine := Elem("extent", "", Elem("startblock", "", Leaf(Text("9"), Done), Done), Done);
    OneExtent("7", []);
    OneExtent("9", [NoExtent.(startBlock := 7)]);
    var last := Elem("extentinfo", "", nine, Done);
    assert FullIn(last, NewFile.(extents := [NoExtent.(startBlock := 7)])).Some?;
    assert SummaryIn(last, NoSummary.(first := NoExtent.(startBlock := 7))) ==
           Some(NoSummary.(first := NoExtent.(startBlock := 9)));
  }

  /** A list of one extent with just this start block, read after others. */
  lemma OneExtent(block: string, before: seq<Extent>)
    ensures var list := Elem("extent", "", Elem("startblock", "", Leaf(Text(block), Done), Done), Done);
      var x := NoExtent.(startBlock := ParsedNumber(block));
      && ExtentsIn(list, before) == Some(before + [x])
      && forall y: Extent :: FirstExtentIn(list, false, y) == Some(x.(fileOffset := y.fileOffset))
  {
    hide ParsedNumber;
    OneBlock(block);
    var x := NoExtent.(startBlock := ParsedNumber(block));
    assert ExtentsIn(Done, before + [x]) == Some(before + [x]);
  }

  lemma OneBlock(text: string)
    ensures ExtentIn(Elem("startblock", "", Leaf(Text(text), Done), Done), NoExtent) ==
            Some(NoExtent.(startBlock := ParsedNumber(text)))
  {
    hide ParsedNumber;
    var leaf := Leaf(Text(text), Done);
    assert TextOf(leaf) == text + "" == text;
    assert Clean(leaf);
    assert ExtentIn(Done, NoExtent.(startBlock := ParsedNumber(text))) ==
           Some(NoExtent.(startBlock := ParsedNumber(text)));
  }

  /** A record with two names: the name parser reports the first, the full parser the second. */
  lemma TwoNamesExample()
    ensures var kids := Elem("name", "", Leaf(Text("a"), Done), Elem("name", "", Leaf(Text("b"), Done), Done));
      NameIn(kids) == Some(DecodeValue("a")) && FullIn(kids, NewFile).Some?
      && FullIn(kids, NewFile).value.name == DecodeValue("b")
      && DecodeValue("a") == "a" && DecodeValue("b") == "b"
  {
    hide TextField;
    var second := Elem("name", "", Leaf(Text("b"), Done), Done);
    assert TextOf(Leaf(Text("a"), Done)) == "a" + "" == "a";
    assert TextOf(Leaf(Text("b"), Done)) == "b" + "" == "b";
    TextSays("name", "a", NewFile);
    TextSays("name", "b", TextField("name", "a", NewFile));
    assert FullIn(second, TextField("name", "a", NewFile)) ==
           Some(TextField("name", "b", TextField("name", "a", NewFile)));
  }

  // ----- rewriting the UID changes nothing else

  lemma FieldUid(n: string, s: string, d: FileData, u: int)
    ensures TextField(n, s, d.(fileUid := u)) ==
            TextField(n, s, d).(fileUid := if n == "fileuid" then ParsedNumber(s) else u)
  {
    hide DecodeValue, ParsedNumber, ParseBool, FieldNamed;
    FieldsNamed0(n);
    FieldsNamed1(n);
    FieldsNamed2(n);
  }

  lemma ChildUid(n: string, k: Nodes, d: FileData, u: int)
    ensures ChildIn(n, k, d.(fileUid := u)) ==
            match ChildIn(n, k, d)
            case None => None
            case Some(f) => Some(f.(fileUid := if n == "fileuid" then ParsedNumber(TextOf(k)) else u))
  {
    hide DecodeValue, ParsedNumber, ParseBool, TextField, TextOf, Clean, ExtentsIn, XattrsIn;
    FieldUid(n, TextOf(k), d, u);
    if n == "extendedattributes" {
    } else if n == "extentinfo" {
    } else {
    }
  }

  /** The UID read so far affects the UID reported, and nothing else. */
  lemma {:induction false} FullUid(kids: Nodes, d: FileData, u: int)
    ensures FullIn(kids, d.(fileUid := u)) ==
            match FullIn(kids, d)
            case None => None
            case Some(f) => Some(f.(fileUid := ParsedUid(kids, u)))
  {
    hide ParsedNumber, TextOf, ChildIn;
    match kids
    case Done =>
    case Elem(n, _, k, t) =>
      ChildUid(n, k, d, u);
      if ChildIn(n, k, d).Some? {
        FullUid(t, ChildIn(n, k, d).value, if n == "fileuid" then ParsedNumber(TextOf(k)) else u);
      }
    case Hollow(n, _, t) => FullUid(t, if n == "symlink" then d.(symlink := Some("")) else d, u);
    case Leaf(_, t) => FullUid(t, d, u);
  }

  lemma {:induction false} FullWithUid(kids: Nodes, d: FileData, uid: int)
    requires Clean(kids)
    ensures FullIn(WithUid(kids, uid), d) ==
            match FullIn(kids, d)
            case None => None
            case Some(f) => Some(f.(fileUid := ParsedUid(WithUid(kids, uid), d.fileUid)))
  {
    hide ParsedNumber, TextOf, IntToString, NatToString, ChildIn;
    var content := Leaf(Text(IntToString(uid)), Done);
    var read := ParsedNumber(TextOf(content));
    match kids
    case Done =>
      ContentField(content, d);
      assert FullIn(Done, d) == Some(d);
      assert FullIn(Elem("fileuid", "", content, Done), d) == FullIn(Done, d.(fileUid := read));
    case Elem(n, a, k, t) =>
      if n == "fileuid" {
        ContentField(content, d);
        ContentField(k, d);
        FullUid(t, d, read);
        FullUid(t, d, ParsedNumber(TextOf(k)));
      } else {
        ChildUid(n, k, d, d.fileUid);
        if ChildIn(n, k, d).Some? { FullWithUid(t, ChildIn(n, k, d).value, uid); }
      }
    case Hollow(n, a, t) =>
      if n == "fileuid" {
        ContentField(content, d);
        FullUid(t, d, read);
        FullUid(t, d, d.fileUid);
      } else {
        FullWithUid(t, if n == "symlink" then d.(symlink := Some("")) else d, uid);
      }
    case Leaf(_, t) => FullWithUid(t, d, uid);
  }

  lemma ContentField(k: Nodes, d: FileData)
    requires Clean(k)
    ensures ChildIn("fileuid", k, d) == Some(d.(fileUid := ParsedNumber(TextOf(k))))
  {
    hide DecodeValue, ParsedNumber, ParseBool, TextOf, Clean, ExtentsIn, XattrsIn;
  }

  // ----- whole records

  datatype Root = NoRoot | HollowRoot | RootWith(kids: Nodes)

  predicate AsciiWhitespace(s: string) {
    forall i :: 0 <= i < |s| ==> s[i] in {' ', '\t', '\n', '\r', 0xC as char}
  }

  /** What may stand before the record's element. */
  predicate Prolog(e: Event) { e.Decl? || e.Comment? || e.PI? || (e.Text? && AsciiWhitespace(e.text)) }

  function RootOf(doc: Nodes): Root {
    match doc
    case Done => NoRoot
    case Elem(n, _, k, _) => if n == "file" then RootWith(k) else NoRoot
    case Hollow(n, _, _) => if n == "file" then HollowRoot else NoRoot
    case Leaf(e, t) => if Prolog(e) then RootOf(t) else NoRoot
  }

  function Full(doc: Nodes): Option<FileData> {
    match RootOf(doc)
    case NoRoot => None
    case HollowRoot => Some(NewFile)
    case RootWith(kids) => FullIn(kids, NewFile)
  }

  function NameOnly(doc: Nodes): Option<string> {
    match RootOf(doc)
    case NoRoot => None
    case HollowRoot => Some("")
    case RootWith(kids) => NameIn(kids)
  }

  function LengthOnly(doc: Nodes): Option<int> {
    match RootOf(doc)
    case NoRoot => None
    case HollowRoot => Some(0)
    case RootWith(kids) => LengthIn(kids)
  }

  function SummaryOnly(doc: Nodes): Option<Summary> {
    match RootOf(doc)
    case NoRoot => None
    case HollowRoot => Some(NoSummary)
    case RootWith(kids) => SummaryIn(kids, NoSummary)
  }

  /** Copying a record with a new UID: whatever the copier accepts parses as before but for the UID,
      and the UID is the new one, whichever it is, exactly when no `fileuid` with content follows the
      first `fileuid` child. */
  lemma UidRewriteParses(a: string, kids: Nodes, uid: int)
    requires Proper(kids) && Clean(kids)
    ensures var doc := Elem("file", a, kids, Done);
      var out := Elem("file", a, WithUid(kids, uid), Done);
      && Rewritten(Flatten(doc), uid) == Some(Flatten(out))
      && Full(out) == (match Full(doc)
                       case None => None
                       case Some(f) => Some(f.(fileUid := ParsedUid(WithUid(kids, uid), 0))))
    ensures (forall u :: I64_MIN <= u <= I64_MAX ==> ParsedUid(WithUid(kids, u), 0) == u) <==> !LaterUid(kids)
  {
    hide FullIn, WithUid, ParsedUid, LaterUid, Rewritten, Flatten, Clean;
    RewriteIsTreeEdit(a, kids, uid);
    FullWithUid(kids, NewFile, uid);
    UidTakesEffectIff(kids);
  }
}
