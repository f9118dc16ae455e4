/** Copying a complete source store behind what a target store already holds: every link and
    header is shifted, every file record is rewritten with a new UID and so changes length. */
module Relocation {
  import opened Common
  import opened XmlEvents
  import opened IndexStore
  import opened RecordUid
  import D = DirectoryTree

  /** Where the target's indexes end before the source is appended. */
  datatype Bases = Bases(files: nat, cells: nat, records: nat, selection: nat)

  function Shifted(v: int, base: nat): int { if v == -1 then -1 else v + base }

  function ShiftFiles(fs: seq<nat>, base: nat): seq<nat> {
    seq(|fs|, i requires 0 <= i < |fs| => fs[i] + base)
  }

  function ShiftForest(f: Forest, b: Bases): Forest {
    match f
    case Nil => Nil
    case Node(c, r, fs, k, t) =>
      Node(c + b.cells, r + b.records, ShiftFiles(fs, b.files), ShiftForest(k, b), ShiftForest(t, b))
  }

  function ShiftHeader(h: DirRecord, b: Bases): DirRecord {
    h.(fileFirst := Shifted(h.fileFirst, b.files), dirFirst := Shifted(h.dirFirst, b.cells))
  }

  function ShiftCell(c: DirCell, b: Bases): DirCell {
    DirCell(Shifted(c.next, b.cells), Shifted(c.record, b.records), Shifted(c.selection, b.selection))
  }

  /** The new store holds the source behind the bases; file cell `i` got UID `uid + i`. */
  ghost predicate Relocated(src: Store, s: Store, b: Bases, uid: int) {
    && |s.fileIndex| == b.files + |src.fileIndex|
    && |s.dirIndex| == b.cells + |src.dirIndex|
    && |s.dirRecords| == b.records + |src.dirRecords|
    && (forall i :: 0 <= i < |src.fileIndex| ==> RelocatedFile(src, s, b, uid, i))
    && (forall c :: 0 <= c < |src.dirIndex| ==>
          s.dirIndex[b.cells + c].next == Shifted(src.dirIndex[c].next, b.cells)
          && s.dirIndex[b.cells + c].record == Shifted(src.dirIndex[c].record, b.records))
    && (forall r :: 0 <= r < |src.dirRecords| ==>
          s.dirRecords[b.records + r] == ShiftHeader(src.dirRecords[r], b))
  }

  ghost predicate RelocatedFile(src: Store, s: Store, b: Bases, uid: int, i: nat)
    requires i < |src.fileIndex| && b.files + i < |s.fileIndex|
  {
    && s.fileIndex[b.files + i].next == Shifted(src.fileIndex[i].next, b.files)
    && InRecords(s, s.fileIndex[b.files + i])
    && Rewritten(FileAt(src, i), uid + i) == Some(FileAt(s, b.files + i))
  }

  lemma {:induction false} ShiftedSeg(src: Store, s: Store, b: Bases, uid: int, first: int, fs: seq<nat>)
    requires Relocated(src, s, b, uid) && FileSeg(src.fileIndex, first, fs, -1)
    ensures FileSeg(s.fileIndex, Shifted(first, b.files), ShiftFiles(fs, b.files), -1)
    ensures |ShiftFiles(fs, b.files)| == |fs|
    decreases |fs|
  {
    hide Rewritten, FileAt, InRecords;
    if fs != [] {
      assert RelocatedFile(src, s, b, uid, fs[0]);
      assert ShiftFiles(fs, b.files)[0] == fs[0] + b.files;
      ShiftedSeg(src, s, b, uid, src.fileIndex[fs[0]].next, fs[1..]);
      assert ShiftFiles(fs, b.files)[1..] == ShiftFiles(fs[1..], b.files);
    }
  }

  /** Chains and headers survive the move: the shifted layout is laid out in the new store. */
  lemma {:induction false} ShiftedDirs(src: Store, s: Store, b: Bases, uid: int, f: Forest, first: int)
    requires Relocated(src, s, b, uid) && DirSeg(src, f, first, -1)
    ensures DirSeg(s, ShiftForest(f, b), Shifted(first, b.cells), -1)
    ensures Length(ShiftForest(f, b)) == Length(f)
    decreases f
  {
    match f
    case Nil =>
    case Node(c, r, fs, k, t) =>
      var h := src.dirRecords[r];
      assert s.dirRecords[b.records + r] == ShiftHeader(h, b);
      ShiftedSeg(src, s, b, uid, h.fileFirst, fs);
      ShiftedDirs(src, s, b, uid, k, h.dirFirst);
      ShiftedDirs(src, s, b, uid, t, src.dirIndex[c].next);
  }

  // ----- the shifted layout's shape

  lemma InShiftFiles(fs: seq<nat>, base: nat, x: nat)
    ensures x in ShiftFiles(fs, base) <==> x >= base && x - base in fs
  {
    var g := ShiftFiles(fs, base);
    if x in g { var i :| 0 <= i < |g| && g[i] == x; assert fs[i] in fs; }
    if x >= base && x - base in fs { var i :| 0 <= i < |fs| && fs[i] == x - base; assert g[i] in g; }
  }

  lemma {:induction false} InShiftCells(f: Forest, b: Bases, x: nat)
    ensures x in Cells(ShiftForest(f, b)) <==> x >= b.cells && x - b.cells in Cells(f)
  {
    match f case Nil => case Node(_, _, _, k, t) => InShiftCells(k, b, x); InShiftCells(t, b, x);
  }

  lemma {:induction false} InShiftRecords(f: Forest, b: Bases, x: nat)
    ensures x in Records(ShiftForest(f, b)) <==> x >= b.records && x - b.records in Records(f)
  {
    match f case Nil => case Node(_, _, _, k, t) => InShiftRecords(k, b, x); InShiftRecords(t, b, x);
  }

  lemma {:induction false} InShiftFileCells(f: Forest, b: Bases, x: nat)
    ensures x in FileCells(ShiftForest(f, b)) <==> x >= b.files && x - b.files in FileCells(f)
  {
    match f
    case Nil =>
    case Node(_, _, fs, k, t) =>
      InShiftFiles(fs, b.files, x);
      InShiftFileCells(k, b, x);
      InShiftFileCells(t, b, x);
  }

  lemma {:induction false} ShiftShape(f: Forest, b: Bases)
    ensures var g := ShiftForest(f, b);
            && Size(g) == Size(f) && FileTotal(g) == FileTotal(f)
            && Last(g) == Shifted(Last(f), b.cells)
  {
    match f
    case Nil =>
    case Node(_, _, _, k, t) =>
      ShiftShape(k, b);
      ShiftShape(t, b);
  }

  lemma ShiftApart(f: Forest, g: Forest, b: Bases)
    requires Apart(f, g)
    ensures Apart(ShiftForest(f, b), ShiftForest(g, b))
  {
    var f', g' := ShiftForest(f, b), ShiftForest(g, b);
    hide Cells, Records, FileCells, ShiftForest;
    forall x | x in Cells(f') ensures x !in Cells(g') { InShiftCells(f, b, x); InShiftCells(g, b, x); }
    forall x | x in Records(f') ensures x !in Records(g') { InShiftRecords(f, b, x); InShiftRecords(g, b, x); }
    forall x | x in FileCells(f') ensures x !in FileCells(g') { InShiftFileCells(f, b, x); InShiftFileCells(g, b, x); }
  }

  lemma ShiftFilesApart(fs: seq<nat>, f: Forest, b: Bases)
    requires Elements(fs) !! FileCells(f)
    ensures Elements(ShiftFiles(fs, b.files)) !! FileCells(ShiftForest(f, b))
  {
    hide FileCells, ShiftForest;
    forall x | x in Elements(ShiftFiles(fs, b.files)) ensures x !in FileCells(ShiftForest(f, b)) {
      InShiftFiles(fs, b.files, x);
      assert x - b.files in Elements(fs);
      InShiftFileCells(f, b, x);
    }
  }

  lemma {:induction false} ShiftSeparated(f: Forest, b: Bases)
    requires Separated(f)
    ensures Separated(ShiftForest(f, b))
  {
    hide Cells, Records, FileCells;
    match f
    case Nil =>
    case Node(c, r, fs, k, t) =>
      ShiftSeparated(k, b);
      ShiftSeparated(t, b);
      InShiftCells(k, b, c + b.cells);
      InShiftCells(t, b, c + b.cells);
      InShiftRecords(k, b, r + b.records);
      InShiftRecords(t, b, r + b.records);
      ShiftApart(k, t, b);
      ShiftFilesApart(fs, k, b);
      ShiftFilesApart(fs, t, b);
  }

  // ----- the shifted layout's meaning

  /** Pointwise: `b` is `a` with each record rewritten under some UID. */
  ghost predicate Renumbered(a: seq<Record>, b: seq<Record>) {
    |a| == |b| && forall i :: 0 <= i < |a| ==> RenumberedRecord(a[i], b[i])
  }

  ghost predicate RenumberedRecord(a: Record, b: Record) { exists uid: int :: Rewritten(a, uid) == Some(b) }

  /** The same directories holding the same files, up to the files' UIDs. */
  ghost predicate SameTree(a: D.Dirs<Record>, b: D.Dirs<Record>) {
    match a
    case Nil => b.Nil?
    case Dir(n, fs, k, t) =>
      b.Dir? && b.name == n && Renumbered(fs, b.files) && SameTree(k, b.kids) && SameTree(t, b.rest)
  }

  lemma {:induction false} RelocatedFiles(src: Store, s: Store, b: Bases, uid: int, fs: seq<nat>)
    requires Relocated(src, s, b, uid) && forall i :: i in fs ==> i < |src.fileIndex|
    ensures Renumbered(FilesAt(src, fs), FilesAt(s, ShiftFiles(fs, b.files)))
  {
    hide Rewritten, InRecords, FileAt;
    if fs != [] {
      assert fs[0] in fs && RelocatedFile(src, s, b, uid, fs[0]);
      assert RenumberedRecord(FileAt(src, fs[0]), FileAt(s, fs[0] + b.files)) by {
        assert Rewritten(FileAt(src, fs[0]), uid + fs[0]) == Some(FileAt(s, fs[0] + b.files));
      }
      assert forall i :: i in fs[1..] ==> i in fs;
      RelocatedFiles(src, s, b, uid, fs[1..]);
      assert ShiftFiles(fs, b.files)[1..] == ShiftFiles(fs[1..], b.files);
    }
  }

  /** Relocation preserves meaning: what the source denotes, up to UIDs. */
  lemma {:induction false} RelocatedValue(src: Store, s: Store, b: Bases, uid: int, f: Forest, first: int)
    requires Relocated(src, s, b, uid) && DirSeg(src, f, first, -1)
    ensures SameTree(Value(src, f), Value(s, ShiftForest(f, b)))
    decreases f
  {
    match f
    case Nil =>
    case Node(c, r, fs, k, t) =>
      var h := src.dirRecords[r];
      assert s.dirRecords[b.records + r] == ShiftHeader(h, b);
      FileSegBounds(src.fileIndex, h.fileFirst, fs, -1);
      RelocatedFiles(src, s, b, uid, fs);
      RelocatedValue(src, s, b, uid, k, h.dirFirst);
      RelocatedValue(src, s, b, uid, t, src.dirIndex[c].next);
  }

  // ----- the merge does not look at file contents

  lemma RenumberedAppend(a: seq<Record>, b: seq<Record>, c: seq<Record>, d: seq<Record>)
    requires Renumbered(a, b) && Renumbered(c, d)
    ensures Renumbered(a + c, b + d)
  {
  }

  lemma {:induction false} SameAppend(a: D.Dirs<Record>, b: D.Dirs<Record>, c: D.Dirs<Record>, d: D.Dirs<Record>)
    requires SameTree(a, b) && SameTree(c, d)
    ensures SameTree(D.Append(a, c), D.Append(b, d))
    decreases a
  {
    match a case Nil => case Dir(_, _, _, t) => SameAppend(t, b.rest, c, d);
  }

  lemma {:induction false} SameGroups(n: string, a: D.Dirs<Record>, b: D.Dirs<Record>)
    requires SameTree(a, b)
    ensures Renumbered(D.FilesOf(n, a), D.FilesOf(n, b))
    ensures SameTree(D.KidsOf(n, a), D.KidsOf(n, b))
    ensures SameTree(D.Without(n, a), D.Without(n, b))
    decreases a
  {
    match a
    case Nil =>
    case Dir(m, fs, k, t) =>
      SameGroups(n, t, b.rest);
      if m == n {
        RenumberedAppend(fs, b.files, D.FilesOf(n, t), D.FilesOf(n, b.rest));
        SameAppend(k, b.kids, D.KidsOf(n, t), D.KidsOf(n, b.rest));
      } else {
        RenumberedAppend([], [], D.FilesOf(n, t), D.FilesOf(n, b.rest));
      }
  }

  /** Merging commutes with renumbering. */
  lemma {:induction false} SameNormalize(a: D.Dirs<Record>, b: D.Dirs<Record>)
    requires SameTree(a, b)
    ensures SameTree(D.Normalize(a), D.Normalize(b))
    decreases D.Size(a)
  {
    match a
    case Nil =>
    case Dir(n, fs, k, t) =>
      SameGroups(n, t, b.rest);
      D.SplitSize(n, t);
      D.AppendSize(k, D.KidsOf(n, t));
      RenumberedAppend(fs, b.files, D.FilesOf(n, t), D.FilesOf(n, b.rest));
      SameAppend(k, b.kids, D.KidsOf(n, t), D.KidsOf(n, b.rest));
      SameNormalize(D.Append(k, D.KidsOf(n, t)), D.Append(b.kids, D.KidsOf(n, b.rest)));
      SameNormalize(D.Without(n, t), D.Without(n, b.rest));
  }

  // ----- sources a parser produces

  /** A finished source store with its top-level chains. */
  datatype Source = Source(store: Store, files: IndexChain, dirs: IndexChain, selectionCount: nat)

  ghost predicate Complete(cells: set<nat>, n: nat) { forall x: nat :: x in cells <==> x < n }

  /** The source's chains lay out `fs` and `f`, which use every cell and record exactly once. */
  ghost predicate WellFormed(src: Source, fs: seq<nat>, f: Forest) {
    var s := src.store;
    && ChainOfFiles(s, src.files, fs) && ChainOfDirs(s, src.dirs, f)
    && Distinct(fs) && Elements(fs) !! FileCells(f) && Separated(f)
    && FilesIn(s, Elements(fs)) && FilesPresent(s, f)
    && Complete(Cells(f), |s.dirIndex|) && Complete(Records(f), |s.dirRecords|)
    && Complete(Elements(fs) + FileCells(f), |s.fileIndex|)
    && (forall i :: 0 <= i < |s.fileIndex| ==> s.fileIndex[i].selection >= -1)
    && (forall c :: 0 <= c < |s.dirIndex| ==> s.dirIndex[c].selection >= -1)
  }

  lemma {:induction false} FileLinks(index: seq<FileCell>, first: int, fs: seq<nat>, i: nat)
    requires FileSeg(index, first, fs, -1)
    ensures first >= -1
    ensures i in fs ==> i < |index| && index[i].next >= -1
    decreases |fs|
  {
    if fs != [] {
      FileLinks(index, index[fs[0]].next, fs[1..], i);
    }
  }

  lemma {:induction false} LayoutLinks(s: Store, f: Forest, first: int, c: nat)
    requires DirSeg(s, f, first, -1)
    ensures first >= -1
    ensures c in Cells(f) ==> c < |s.dirIndex| && s.dirIndex[c].next >= -1
                              && 0 <= s.dirIndex[c].record < |s.dirRecords| && s.dirIndex[c].record in Records(f)
    decreases f
  {
    match f
    case Nil =>
    case Node(d, r, fs, k, t) =>
      LayoutLinks(s, k, s.dirRecords[r].dirFirst, c);
      LayoutLinks(s, t, s.dirIndex[d].next, c);
  }

  lemma {:induction false} LayoutHeaders(s: Store, f: Forest, first: int, r: nat)
    requires DirSeg(s, f, first, -1)
    ensures r in Records(f) ==> r < |s.dirRecords| && s.dirRecords[r].fileFirst >= -1 && s.dirRecords[r].dirFirst >= -1
    decreases f
  {
    match f
    case Nil =>
    case Node(d, q, fs, k, t) =>
      FileLinks(s.fileIndex, s.dirRecords[q].fileFirst, fs, 0);
      LayoutLinks(s, k, s.dirRecords[q].dirFirst, 0);
      LayoutHeaders(s, k, s.dirRecords[q].dirFirst, r);
      LayoutHeaders(s, t, s.dirIndex[d].next, r);
  }

  /** Different cells name different records, so each header is shifted exactly once. */
  lemma {:induction false} LayoutInjective(s: Store, f: Forest, first: int, c: nat, d: nat)
    requires DirSeg(s, f, first, -1) && Separated(f) && c in Cells(f) && d in Cells(f) && c != d
    ensures c < |s.dirIndex| && d < |s.dirIndex| && s.dirIndex[c].record != s.dirIndex[d].record
    decreases f
  {
    match f
    case Node(e, r, fs, k, t) =>
      LayoutLinks(s, k, s.dirRecords[r].dirFirst, c);
      LayoutLinks(s, k, s.dirRecords[r].dirFirst, d);
      LayoutLinks(s, t, s.dirIndex[e].next, c);
      LayoutLinks(s, t, s.dirIndex[e].next, d);
      if c in Cells(k) && d in Cells(k) {
        LayoutInjective(s, k, s.dirRecords[r].dirFirst, c, d);
      } else if c in Cells(t) && d in Cells(t) {
        LayoutInjective(s, t, s.dirIndex[e].next, c, d);
      }
  }

  /** Every record belongs to some cell. */
  lemma {:induction false} LayoutOnto(s: Store, f: Forest, first: int, r: nat)
    requires DirSeg(s, f, first, -1) && r in Records(f)
    ensures exists c :: c in Cells(f) && c < |s.dirIndex| && s.dirIndex[c].record == r
    decreases f
  {
    match f
    case Node(e, q, fs, k, t) =>
      if r == q {
        assert e in Cells(f);
      } else if r in Records(k) {
        LayoutOnto(s, k, s.dirRecords[q].dirFirst, r);
      } else {
        LayoutOnto(s, t, s.dirIndex[e].next, r);
      }
  }

  lemma {:induction false} LayoutFileLinks(s: Store, f: Forest, first: int, i: nat)
    requires DirSeg(s, f, first, -1) && i in FileCells(f)
    ensures i < |s.fileIndex| && s.fileIndex[i].next >= -1
    decreases f
  {
    match f
    case Node(e, q, fs, k, t) =>
      if i in fs {
        FileLinks(s.fileIndex, s.dirRecords[q].fileFirst, fs, i);
      } else if i in FileCells(k) {
        LayoutFileLinks(s, k, s.dirRecords[q].dirFirst, i);
      } else {
        LayoutFileLinks(s, t, s.dirIndex[e].next, i);
      }
  }

  /** What the copying loops check, entry by entry. */
  ghost predicate Checked(s: Store) {
    && (forall i :: 0 <= i < |s.fileIndex| ==>
          InRecords(s, s.fileIndex[i]) && s.fileIndex[i].next >= -1 && s.fileIndex[i].selection >= -1)
    && (forall c :: 0 <= c < |s.dirIndex| ==>
          s.dirIndex[c].next >= -1 && 0 <= s.dirIndex[c].record < |s.dirRecords| && s.dirIndex[c].selection >= -1)
    && (forall r :: 0 <= r < |s.dirRecords| ==> s.dirRecords[r].fileFirst >= -1 && s.dirRecords[r].dirFirst >= -1)
    && (forall c, d :: 0 <= c < d < |s.dirIndex| ==> s.dirIndex[c].record != s.dirIndex[d].record)
    && (forall r :: 0 <= r < |s.dirRecords| ==> HasCell(s, r))
  }

  /** Every file entry names a record within the record file, and its links are not below -1. */
  ghost predicate FilesChecked(s: Store) { forall i :: 0 <= i < |s.fileIndex| ==> FileChecked(s, i) }

  predicate FileChecked(s: Store, i: nat)
    requires i < |s.fileIndex|
  {
    InRecords(s, s.fileIndex[i]) && s.fileIndex[i].next >= -1 && s.fileIndex[i].selection >= -1
  }

  /** Every directory entry names a header, whose links are not below -1. */
  ghost predicate HeadersChecked(s: Store) { forall c :: 0 <= c < |s.dirIndex| ==> HeaderChecked(s, c) }

  predicate HeaderChecked(s: Store, c: nat)
    requires c < |s.dirIndex|
  {
    var r := s.dirIndex[c].record;
    0 <= r < |s.dirRecords| && s.dirRecords[r].fileFirst >= -1 && s.dirRecords[r].dirFirst >= -1
  }

  ghost predicate CellsChecked(s: Store) { forall c :: 0 <= c < |s.dirIndex| ==> CellChecked(s.dirIndex[c]) }

  predicate CellChecked(c: DirCell) { c.next >= -1 && c.record >= -1 && c.selection >= -1 }

  lemma CheckedParts(s: Store)
    ensures Checked(s) ==> FilesChecked(s) && HeadersChecked(s) && CellsChecked(s)
  {
  }

  ghost predicate HasCell(s: Store, r: int) { exists c :: 0 <= c < |s.dirIndex| && s.dirIndex[c].record == r }

  /** A parser's output passes every check of the relocation. */
  lemma WellFormedChecked(src: Source, fs: seq<nat>, f: Forest)
    requires WellFormed(src, fs, f)
    ensures Checked(src.store) && src.files.first >= -1 && src.dirs.first >= -1
    ensures src.files.last >= -1 && src.dirs.last >= -1
  {
    var s := src.store;
    hide DirSeg, FileSeg, Cells, Records, FileCells, Separated, InRecords;
    LayoutLinks(s, f, src.dirs.first, 0);
    FileLinks(s.fileIndex, src.files.first, fs, 0);
    if f.Node? { LastIn(f); }
    forall i: nat | i < |s.fileIndex|
      ensures InRecords(s, s.fileIndex[i]) && s.fileIndex[i].next >= -1 && s.fileIndex[i].selection >= -1
    {
      assert i in Elements(fs) + FileCells(f);
      if i in Elements(fs) {
        FileLinks(s.fileIndex, src.files.first, fs, i);
      } else {
        LayoutFileLinks(s, f, src.dirs.first, i);
      }
    }
    forall c: nat | c < |s.dirIndex|
      ensures s.dirIndex[c].next >= -1 && 0 <= s.dirIndex[c].record < |s.dirRecords| && s.dirIndex[c].selection >= -1
    {
      LayoutLinks(s, f, src.dirs.first, c);
    }
    forall r: nat | r < |s.dirRecords| ensures s.dirRecords[r].fileFirst >= -1 && s.dirRecords[r].dirFirst >= -1 {
      LayoutHeaders(s, f, src.dirs.first, r);
    }
    forall c: nat, d: nat | c < d < |s.dirIndex| ensures s.dirIndex[c].record != s.dirIndex[d].record {
      LayoutInjective(s, f, src.dirs.first, c, d);
    }
    forall r: nat | r < |s.dirRecords| ensures HasCell(s, r) {
      LayoutOnto(s, f, src.dirs.first, r);
    }
  }

  /** A copied file entry: shifted link, and a record that is the source's under the new UID. */
  ghost predicate CopiedEntry(s: Store, i: nat, e: FileCell, records: seq<Event>, base: nat, uid: int)
    requires i < |s.fileIndex|
  {
    && e.next == Shifted(s.fileIndex[i].next, base)
    && 0 <= e.offset && 0 < e.length && e.offset + e.length <= |records|
    && Rewritten(FileAt(s, i), uid + i) == Some(records[e.offset..e.offset + e.length])
  }

  /** The prefix `s0` of a store that has only grown. */
  ghost predicate Grown(s0: Store, s: Store) {
    s0.fileRecords <= s.fileRecords && s0.fileIndex <= s.fileIndex
    && s0.dirIndex <= s.dirIndex && s0.dirRecords <= s.dirRecords
  }

  /** A rewritten record is never empty. */
  lemma {:induction false} CopyWrites(c: CopyState, events: seq<Event>, uid: int)
    ensures var r := Copy(c, events, uid);
            r.Some? && !c.rootSeen && r.value.0.rootSeen ==> r.value.1 != []
    decreases |events|
  {
    hide DecodeGeneralRef, IntToString;
    if events != [] {
      match CopyStep(c, events[0], uid)
      case None =>
      case Some((c', out)) => CopyWrites(c', events[1..], uid);
    }
  }

  lemma RewrittenNonEmpty(events: seq<Event>, uid: int)
    requires Rewritten(events, uid).Some?
    ensures Rewritten(events, uid).value != []
  {
    CopyWrites(CopyStart, events, uid);
  }

  /** Every file record of the store can be rewritten. */
  ghost predicate Rewritable(s: Store, uid: int) {
    forall i :: 0 <= i < |s.fileIndex| ==> Rewritten(FileAt(s, i), uid + i).Some?
  }
}
