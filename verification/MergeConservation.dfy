/** The merge of several schemas from inputs to result: which files there are, where, and under
    which UIDs. */
module MergeConservation {
  import opened Common
  import opened XmlEvents
  import opened IndexStore
  import opened RecordUid
  import opened Relocation
  import opened Building
  import opened Merging
  import F = FileRecord
  import D = DirectoryTree

  /** A record regardless of its UID: as it is once rewritten under UID 0. */
  function WithoutUid(r: Record): Record {
    match Rewritten(r, 0) case None => r case Some(x) => x
  }

  /** The pairs of directory path and file, with multiplicity, of all inputs; the inputs' own top
      level is the merged root's. */
  ghost function InputFiles(inputs: seq<Items>): multiset<(seq<string>, Record)> {
    if inputs == [] then multiset{}
    else
      var last := inputs[|inputs| - 1];
      InputFiles(inputs[..|inputs| - 1]) + D.Tagged([], D.MapSeq(ItemFiles(last), WithoutUid))
      + D.Entries([], D.MapFiles(ItemDirs(last), WithoutUid))
  }

  /** The same of a store with root files `fs` and directories `g`. */
  ghost function StoreFiles(s: Store, fs: seq<nat>, g: Forest): multiset<(seq<string>, Record)> {
    D.Tagged([], D.MapSeq(FilesAt(s, fs), WithoutUid)) + D.Entries([], D.MapFiles(Value(s, g), WithoutUid))
  }

  lemma {:induction false} InputsTogether(inputs: seq<Items>)
    ensures InputFiles(inputs) ==
            D.Tagged([], D.MapSeq(AllFiles(inputs), WithoutUid))
              + D.Entries([], D.MapFiles(AllDirs(inputs), WithoutUid))
  {
    if inputs != [] {
      var before, last := inputs[..|inputs| - 1], inputs[|inputs| - 1];
      InputsTogether(before);
      hide WithoutUid, ItemFiles, ItemDirs;
      D.MapSeqAppend(AllFiles(before), ItemFiles(last), WithoutUid);
      D.TaggedAppend([], D.MapSeq(AllFiles(before), WithoutUid), D.MapSeq(ItemFiles(last), WithoutUid));
      D.MapAppend(AllDirs(before), ItemDirs(last), WithoutUid);
      D.EntriesAppend([], D.MapFiles(AllDirs(before), WithoutUid), D.MapFiles(ItemDirs(last), WithoutUid));
    }
  }

  lemma SameWithoutUid(a: Record, b: Record)
    requires RenumberedRecord(a, b)
    ensures WithoutUid(a) == WithoutUid(b)
  {
    hide Rewritten;
    var uid: int :| Rewritten(a, uid) == Some(b);
    RewriteTwice(a, uid, 0);
    CopyAnyUid(CopyStart, a, uid, 0);
    AcceptedAnyUid(a, uid);
    AcceptedAnyUid(a, 0);
  }

  lemma SameFiles(a: seq<Record>, b: seq<Record>)
    requires Renumbered(a, b)
    ensures D.MapSeq(a, WithoutUid) == D.MapSeq(b, WithoutUid)
  {
    hide WithoutUid, RenumberedRecord;
    forall i | 0 <= i < |a| ensures WithoutUid(a[i]) == WithoutUid(b[i]) {
      assert RenumberedRecord(a[i], b[i]);
      SameWithoutUid(a[i], b[i]);
    }
  }

  lemma {:induction false} SameTrees(a: D.Dirs<Record>, b: D.Dirs<Record>)
    requires SameTree(a, b)
    ensures D.MapFiles(a, WithoutUid) == D.MapFiles(b, WithoutUid)
  {
    hide WithoutUid, Renumbered;
    match a
    case Nil =>
    case Dir(_, fs, k, t) =>
      SameFiles(fs, b.files);
      SameTrees(k, b.kids);
      SameTrees(t, b.rest);
  }

  /** Every file of every input is in the merged store under the path it had, as often as it was
      there, and nothing else is; only UIDs differ. */
  lemma MergeConserves(s: Store, fs: seq<nat>, g: Forest, inputs: seq<Items>, rootName: string, nextUid: int)
    requires MergedStore(s, fs, g, inputs, rootName, nextUid)
    ensures StoreFiles(s, fs, g) == InputFiles(inputs)
  {
    MergedMeaning(s, fs, g, inputs, rootName, nextUid);
    hide *;
    var a, m := AllDirs(inputs), WithoutUid;
    InputsTogether(inputs);
    SameFiles(AllFiles(inputs), FilesAt(s, fs));
    SameTrees(D.Normalize(a), Value(s, g));
    D.MapNormalize(a, m);
    D.NormalizeConserves([], D.MapFiles(a, m));
    StoreFilesAre(s, fs, g);
  }

  lemma StoreFilesAre(s: Store, fs: seq<nat>, g: Forest)
    ensures StoreFiles(s, fs, g) ==
            D.Tagged([], D.MapSeq(FilesAt(s, fs), WithoutUid)) + D.Entries([], D.MapFiles(Value(s, g), WithoutUid))
  {
  }

  lemma MergedMeaning(s: Store, fs: seq<nat>, g: Forest, inputs: seq<Items>, rootName: string, nextUid: int)
    requires MergedStore(s, fs, g, inputs, rootName, nextUid)
    ensures Renumbered(AllFiles(inputs), FilesAt(s, fs)) && SameTree(D.Normalize(AllDirs(inputs)), Value(s, g))
    ensures Complete(Elements(fs) + FileCells(g), |s.fileIndex|) && AllNumbered(s)
  {
  }

  // ----- under which UIDs

  ghost function RawFiles(inputs: seq<Items>): multiset<(seq<string>, Record)> {
    D.Tagged([], AllFiles(inputs)) + D.Entries([], AllDirs(inputs))
  }

  /** The record is a file of some input, under some path. */
  ghost predicate FromInputs(inputs: seq<Items>, r: Record) { exists path :: (path, r) in RawFiles(inputs) }

  lemma {:induction false} InTagged(at: seq<string>, fs: seq<Record>, x: Record)
    ensures (at, x) in D.Tagged(at, fs) <==> x in fs
  {
    if fs != [] { InTagged(at, fs[1..], x); }
  }

  lemma {:induction false} CellInFiles(s: Store, fs: seq<nat>, i: nat)
    requires i in fs
    ensures FileAt(s, i) in FilesAt(s, fs)
  {
    hide FileAt;
    if i != fs[0] { CellInFiles(s, fs[1..], i); }
    assert FilesAt(s, fs)[0] == FileAt(s, fs[0]) && FilesAt(s, fs)[1..] == FilesAt(s, fs[1..]);
  }

  lemma {:induction false} CellInTree(s: Store, f: Forest, i: nat, at: seq<string>) returns (path: seq<string>)
    requires i in FileCells(f)
    ensures (path, FileAt(s, i)) in D.Entries(at, Value(s, f))
  {
    hide FileAt, D.Tagged;
    match f
    case Node(_, r, fs, k, t) =>
      var below := at + [NameAt(s, r)];
      if i in Elements(fs) {
        path := below;
        CellInFiles(s, fs, i);
        InTagged(below, FilesAt(s, fs), FileAt(s, i));
      } else if i in FileCells(k) {
        path := CellInTree(s, k, i, below);
      } else {
        path := CellInTree(s, t, i, at);
      }
  }

  lemma PartnerFile(a: seq<Record>, b: seq<Record>, x: Record) returns (r: Record)
    requires Renumbered(a, b) && x in b
    ensures r in a && RenumberedRecord(r, x)
  {
    var i :| 0 <= i < |b| && b[i] == x;
    r := a[i];
  }

  lemma {:induction false} PartnerInTree(a: D.Dirs<Record>, b: D.Dirs<Record>, at: seq<string>, path: seq<string>,
                                         x: Record)
    returns (r: Record)
    requires SameTree(a, b) && (path, x) in D.Entries(at, b)
    ensures (path, r) in D.Entries(at, a) && RenumberedRecord(r, x)
    decreases a
  {
    hide RenumberedRecord, Renumbered, D.Tagged;
    match a
    case Nil =>
    case Dir(n, fs, k, t) =>
      if (path, x) in D.Tagged(at + [n], b.files) {
        TaggedPath(at + [n], b.files, path, x);
        InTagged(path, b.files, x);
        r := PartnerFile(fs, b.files, x);
        InTagged(path, fs, r);
      } else if (path, x) in D.Entries(at + [n], b.kids) {
        r := PartnerInTree(k, b.kids, at + [n], path, x);
      } else {
        r := PartnerInTree(t, b.rest, at, path, x);
      }
  }

  lemma {:induction false} TaggedPath(at: seq<string>, fs: seq<Record>, path: seq<string>, x: Record)
    requires (path, x) in D.Tagged(at, fs)
    ensures path == at
  {
    if fs != [] && (path, x) in D.Tagged(at, fs[1..]) { TaggedPath(at, fs[1..], path, x); }
  }

  /** Each file cell of the merged store holds some input's record, rewritten under the cell's UID. */
  lemma EachFileNumbered(s: Store, fs: seq<nat>, g: Forest, inputs: seq<Items>, rootName: string, nextUid: int, i: nat)
    returns (r: Record)
    requires MergedStore(s, fs, g, inputs, rootName, nextUid) && i < |s.fileIndex|
    ensures FromInputs(inputs, r) && Rewritten(r, i + 1) == Some(FileAt(s, i))
  {
    MergedMeaning(s, fs, g, inputs, rootName, nextUid);
    CellReachable(s, fs, g, i);
    hide MergedStore, Complete, AllNumbered, FileAt, FilesAt, Value, Renumbered, SameTree, RenumberedRecord, Rewritten,
         FromInputs, AllFiles, AllDirs;
    if i in Elements(fs) {
      r := PartnerAtRoot(s, fs, inputs, i);
    } else {
      r := PartnerBelow(s, g, inputs, i);
    }
    CellNumbered(s, i);
    LastUid(r, FileAt(s, i), i + 1);
  }

  lemma PartnerAtRoot(s: Store, fs: seq<nat>, inputs: seq<Items>, i: nat) returns (r: Record)
    requires Renumbered(AllFiles(inputs), FilesAt(s, fs)) && i in fs
    ensures FromInputs(inputs, r) && RenumberedRecord(r, FileAt(s, i))
  {
    hide FileAt, FilesAt, Renumbered, RenumberedRecord, D.Tagged, D.Entries, AllFiles, AllDirs;
    CellInFiles(s, fs, i);
    r := PartnerFile(AllFiles(inputs), FilesAt(s, fs), FileAt(s, i));
    InTagged([], AllFiles(inputs), r);
    assert ([], r) in RawFiles(inputs);
  }

  lemma PartnerBelow(s: Store, g: Forest, inputs: seq<Items>, i: nat) returns (r: Record)
    requires SameTree(D.Normalize(AllDirs(inputs)), Value(s, g)) && i in FileCells(g)
    ensures FromInputs(inputs, r) && RenumberedRecord(r, FileAt(s, i))
  {
    hide FileAt, SameTree, Value, RenumberedRecord, D.Tagged, D.Entries, AllFiles, AllDirs, FileCells;
    var path := CellInTree(s, g, i, []);
    r := PartnerInTree(D.Normalize(AllDirs(inputs)), Value(s, g), [], path, FileAt(s, i));
    D.NormalizeConserves([], AllDirs(inputs));
    assert (path, r) in RawFiles(inputs);
  }

  lemma CellReachable(s: Store, fs: seq<nat>, g: Forest, i: nat)
    requires Complete(Elements(fs) + FileCells(g), |s.fileIndex|) && i < |s.fileIndex|
    ensures i in Elements(fs) || i in FileCells(g)
  {
    hide FileCells;
    assert i in Elements(fs) + FileCells(g);
  }

  lemma CellNumbered(s: Store, i: nat)
    requires AllNumbered(s) && i < |s.fileIndex|
    ensures RewrittenAs(FileAt(s, i), i + 1)
  {
    hide Rewritten, FileAt;
    assert Numbered(s, i);
  }

  lemma LastUid(r: Record, x: Record, uid: int)
    requires RenumberedRecord(r, x) && RewrittenAs(x, uid)
    ensures Rewritten(r, uid) == Some(x)
  {
    hide Rewritten;
    var before: int :| Rewritten(r, before) == Some(x);
    var source: Record :| Rewritten(source, uid) == Some(x);
    RewriteTwice(r, before, uid);
    RewriteTwice(source, uid, uid);
  }

  /** The record is a single `file` element with these children. */
  predicate FileElement(r: Record, a: string, kids: Nodes) {
    Proper(kids) && (r == Flatten(Elem("file", a, kids, Done)) || (kids.Done? && r == Flatten(Hollow("file", a, Done))))
  }

  /** The UID the full parser reports for a merged file: its own number, unless the input's record
      has a `fileuid` with content after its first `fileuid`; then whatever it was before the merge. */
  lemma ReportedUid(r: Record, a: string, kids: Nodes, uid: int)
    requires FileElement(r, a, kids) && Rewritten(r, uid).Some? && I64_MIN <= uid <= I64_MAX
    ensures Rewritten(r, uid) == Some(Flatten(Elem("file", a, WithUid(kids, uid), Done)))
    ensures ParsedUid(WithUid(kids, uid), 0) == if LaterUid(kids) then ParsedUid(WithUid(kids, 0), 0) else uid
    ensures F.FullIn(kids, F.NewFile).Some? ==>
      F.FullIn(WithUid(kids, uid), F.NewFile) ==
      Some(F.FullIn(kids, F.NewFile).value.(fileUid := ParsedUid(WithUid(kids, uid), 0)))
  {
    hide Rewritten, WithUid, ParsedUid, LaterUid, Flatten, Clean, F.FullIn, IntToString;
    if r == Flatten(Elem("file", a, kids, Done)) {
      RewriteIsTreeEdit(a, kids, uid);
    } else {
      RewriteHollow(a, uid);
      NothingUnclean();
    }
    F.FullWithUid(kids, F.NewFile, uid);
    if LaterUid(kids) { StaleUid(kids, uid, 0, 0); } else { NewUid(kids, uid, 0); }
  }

  lemma NothingUnclean()
    ensures Clean(Done)
  {
  }

  /** When no input record has such a second UID, the UIDs reported for the merged files are exactly
      their numbers, 1 for the first cell and so on. */
  lemma MergedUids(s: Store, fs: seq<nat>, g: Forest, inputs: seq<Items>, rootName: string, nextUid: int, i: nat)
    returns (r: Record, a: string, kids: Nodes)
    requires MergedStore(s, fs, g, inputs, rootName, nextUid) && i < |s.fileIndex| < I64_MAX
    requires forall r :: FromInputs(inputs, r) ==> exists a, kids :: FileElement(r, a, kids) && !LaterUid(kids)
    ensures FromInputs(inputs, r) && FileElement(r, a, kids)
    ensures FileAt(s, i) == Flatten(Elem("file", a, WithUid(kids, i + 1), Done))
            && ParsedUid(WithUid(kids, i + 1), 0) == i + 1
  {
    hide MergedStore, FromInputs, FileElement, LaterUid, Rewritten, FileAt, Flatten, WithUid, ParsedUid;
    r := EachFileNumbered(s, fs, g, inputs, rootName, nextUid, i);
    a, kids :| FileElement(r, a, kids) && !LaterUid(kids);
    ReportedUid(r, a, kids, i + 1);
  }
}
