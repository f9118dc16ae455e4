/** What a parser leaves behind: a store grown by exactly the cells and records of the parsed
    children, each used once. */
module Building {
  import opened Common
  import opened IndexStore
  import opened ChainSurgery
  import opened MergeProof
  import opened Relocation
  import D = DirectoryTree

  /** A directory's children in document order. */
  datatype Items =
    | NoMore
    | FileItem(record: Record, next: Items)
    | DirItem(name: Option<string>, uid: int, contents: Items, next: Items)

  function ItemFiles(items: Items): seq<Record> {
    match items
    case NoMore => []
    case FileItem(r, t) => [r] + ItemFiles(t)
    case DirItem(_, _, _, t) => ItemFiles(t)
  }

  function ItemDirs(items: Items): D.Dirs<Record> {
    match items
    case NoMore => D.Nil
    case FileItem(_, t) => ItemDirs(t)
    case DirItem(name, _, c, t) =>
      D.Dir(match name case None => "" case Some(n) => n, ItemFiles(c), ItemDirs(c), ItemDirs(t))
  }

  /** A parser writes at least one event per file record. */
  ghost predicate Written(items: Items) {
    match items
    case NoMore => true
    case FileItem(r, t) => r != [] && Written(t)
    case DirItem(_, _, c, t) => Written(c) && Written(t)
  }

  ghost predicate Fresh(cells: set<nat>, a: nat, b: nat) { forall x: nat :: x in cells <==> a <= x < b }

  /** From `s0` to `s` exactly the files `fs` and the directories `f` were added. */
  ghost predicate Built(s0: Store, s: Store, fs: seq<nat>, f: Forest) {
    && Grown(s0, s)
    && Distinct(fs) && Elements(fs) !! FileCells(f) && Separated(f)
    && FilesIn(s, Elements(fs)) && FilesPresent(s, f)
    && Fresh(Cells(f), |s0.dirIndex|, |s.dirIndex|) && Fresh(Records(f), |s0.dirRecords|, |s.dirRecords|)
    && Fresh(Elements(fs) + FileCells(f), |s0.fileIndex|, |s.fileIndex|)
    && TotalsTrue(s, f) && SelectionsValid(s0, s)
  }

  ghost predicate SelectionsValid(s0: Store, s: Store) {
    && (forall i :: |s0.fileIndex| <= i < |s.fileIndex| ==> s.fileIndex[i].selection >= -1)
    && (forall c :: |s0.dirIndex| <= c < |s.dirIndex| ==> s.dirIndex[c].selection >= -1)
  }

  /** Appending a cell to a chain: the cell at the end of the index, and the link to it. */
  function PushFile(index: seq<FileCell>, chain: IndexChain, e: FileCell): seq<FileCell> {
    var grown := index + [e];
    if 0 <= chain.last < |index| then grown[chain.last := grown[chain.last].(next := |index|)] else grown
  }

  function PushDir(index: seq<DirCell>, chain: IndexChain, e: DirCell): seq<DirCell> {
    var grown := index + [e];
    if 0 <= chain.last < |index| then grown[chain.last := grown[chain.last].(next := |index|)] else grown
  }

  function Pushed(chain: IndexChain, at: int): IndexChain {
    IndexChain(if chain.last >= 0 then chain.first else at, at, chain.count + 1)
  }

  lemma PushFileChain(s: Store, chain: IndexChain, fs: seq<nat>, e: FileCell)
    requires ChainOfFiles(s, chain, fs) && Distinct(fs) && e.next == -1
    ensures var n := |s.fileIndex|;
            ChainOfFiles(s.(fileIndex := PushFile(s.fileIndex, chain, e)), Pushed(chain, n), fs + [n])
    ensures |s.fileIndex| !in fs
  {
    var n := |s.fileIndex|;
    var index := PushFile(s.fileIndex, chain, e);
    FileSegBounds(s.fileIndex, chain.first, fs, -1);
    var grown := s.fileIndex + [e];
    FileSegGrown(s.fileIndex, grown, chain.first, fs, -1);
    assert FileSeg(index, n, [n], -1) by {
      assert index[n].next == -1;
      assert FileSeg(index, -1, [], -1) && [n][1..] == [];
    }
    if fs != [] {
      assert fs[|fs| - 1] in fs;
      FileSegRedirect(grown, chain.first, fs, -1, n);
      assert index == grown[chain.last := grown[chain.last].(next := n)];
      FileSegJoin(index, chain.first, fs, n, [n], -1);
    } else {
      assert fs + [n] == [n];
    }
  }

  lemma {:induction false} FileSegGrown(index: seq<FileCell>, index': seq<FileCell>, first: int, fs: seq<nat>,
                                        stop: int)
    requires FileSeg(index, first, fs, stop) && index <= index'
    ensures FileSeg(index', first, fs, stop)
    decreases |fs|
  {
    if fs != [] {
      FileSegGrown(index, index', index[fs[0]].next, fs[1..], stop);
    }
  }

  /** The file chain with one more file. */
  lemma FileChained(s: Store, s': Store, fs: seq<nat>, files: IndexChain, record: Record, e: FileCell)
    requires ChainOfFiles(s, files, fs) && Distinct(fs) && FilesIn(s, Elements(fs))
    requires record != [] && e.next == -1 && e.offset == |s.fileRecords| && e.length == |record|
    requires s' == s.(fileRecords := s.fileRecords + record, fileIndex := PushFile(s.fileIndex, files, e))
    ensures var n := |s.fileIndex|;
            && ChainOfFiles(s', Pushed(files, n), fs + [n])
            && FilesAt(s', fs + [n]) == FilesAt(s, fs) + [record]
            && FilesIn(s', Elements(fs)) && InRecords(s', s'.fileIndex[n]) && n !in fs
            && |s'.fileIndex| == n + 1 && s'.fileIndex[n] == e
    ensures forall i :: 0 <= i < |s.fileIndex| && i !in Elements(fs) ==> s'.fileIndex[i] == s.fileIndex[i]
    ensures forall i :: 0 <= i < |s.fileIndex| ==> s'.fileIndex[i].selection == s.fileIndex[i].selection
  {
    hide FileSeg, FileAt;
    var n := |s.fileIndex|;
    var s1 := s.(fileRecords := s.fileRecords + record, fileIndex := s.fileIndex + [e]);
    PushFileChain(s, files, fs, e);
    LastOfChain(s, files, fs);
    assert forall i :: i in fs <==> i in Elements(fs);
    assert Touches(s1, s', {}, {}, Elements(fs));
    FrameFiles(s, s1, files.first, fs, -1);
    TouchesFiles(s1, s', fs, {}, {}, Elements(fs));
    TouchesPresent(s1, s', Elements(fs), {}, {}, Elements(fs));
    NewFileAt(s', n, record, e);
    FilesAtAppend(s', fs, [n]);
  }

  lemma NewFileAt(s: Store, n: nat, record: Record, e: FileCell)
    requires n < |s.fileIndex| && s.fileIndex[n] == e && record != []
    requires e.offset >= 0 && e.length == |record| && e.offset + e.length == |s.fileRecords|
    requires s.fileRecords[e.offset..] == record
    ensures FilesAt(s, [n]) == [record] && InRecords(s, e)
  {
    assert s.fileRecords[e.offset..e.offset + e.length] == record;
    assert [n][1..] == [];
  }

  /** Appending a file keeps the records behind one another. */
  lemma PackedFile(s: Store, s': Store, files: IndexChain, record: Record, e: FileCell)
    requires Packed(s) && record != [] && e.offset == |s.fileRecords| && e.length == |record|
    requires s' == s.(fileRecords := s.fileRecords + record, fileIndex := PushFile(s.fileIndex, files, e))
    ensures Packed(s')
  {
    hide Packed;
    var grown := s.(fileRecords := s.fileRecords + record, fileIndex := s.fileIndex + [e]);
    PackedMore(s, grown, e);
    PackedSame(grown, s');
  }

  lemma FreshAdd(cells: set<nat>, a: nat, n: nat)
    requires Fresh(cells, a, n) && a <= n
    ensures Fresh(cells + {n}, a, n + 1) && n !in cells
  {
  }

  lemma FreshJoin(c: set<nat>, d: set<nat>, a: nat, m: nat, n: nat)
    requires Fresh(c, a, m) && Fresh(d, m, n) && a <= m <= n
    ensures Fresh(c + d, a, n) && c !! d
  {
  }

  /** One more file at the end of the directory being built. */
  lemma BuiltFile(
    s0: Store, s: Store, s': Store, fs: seq<nat>, f: Forest, files: IndexChain, dirs: IndexChain,
    record: Record, e: FileCell)
    requires Built(s0, s, fs, f) && ChainOfFiles(s, files, fs) && ChainOfDirs(s, dirs, f)
    requires record != [] && e.next == -1 && e.offset == |s.fileRecords| && e.length == |record| && e.selection >= -1
    requires s' == s.(fileRecords := s.fileRecords + record, fileIndex := PushFile(s.fileIndex, files, e))
    ensures var n := |s.fileIndex|;
            && Built(s0, s', fs + [n], f)
            && ChainOfFiles(s', Pushed(files, n), fs + [n]) && ChainOfDirs(s', dirs, f)
            && FilesAt(s', fs + [n]) == FilesAt(s, fs) + [record] && Value(s', f) == Value(s, f)
  {
    hide DirSeg, FileSeg, Cells, Records, FileCells, Separated, TotalsTrue, Value, FilesAt, InRecords, Touches;
    var n := |s.fileIndex|;
    FileChained(s, s', fs, files, record, e);
    FreshAdd(Elements(fs) + FileCells(f), |s0.fileIndex|, n);
    assert Elements(fs + [n]) == Elements(fs) + {n};
    assert Elements(fs) + {n} + FileCells(f) == Elements(fs) + FileCells(f) + {n};
    assert Agree(s, s', f);
    FrameDirs(s, s', f, dirs.first, -1);
    GrownFile(s0, s, s', fs, f);
    hide Fresh, Elements;
  }

  /** The earlier part of the index is older than every file being built. */
  lemma GrownFile(s0: Store, s: Store, s': Store, fs: seq<nat>, f: Forest)
    requires Grown(s0, s) && Fresh(Elements(fs) + FileCells(f), |s0.fileIndex|, |s.fileIndex|)
    requires |s'.fileIndex| > |s.fileIndex| && s.fileRecords <= s'.fileRecords
    requires s'.dirIndex == s.dirIndex && s'.dirRecords == s.dirRecords
    requires forall i :: 0 <= i < |s.fileIndex| && i !in Elements(fs) ==> s'.fileIndex[i] == s.fileIndex[i]
    ensures Grown(s0, s')
  {
    hide FileCells, Elements;
    assert forall i :: 0 <= i < |s0.fileIndex| ==> i !in Elements(fs) + FileCells(f);
  }

  lemma LastOfChain(s: Store, files: IndexChain, fs: seq<nat>)
    requires ChainOfFiles(s, files, fs)
    ensures fs == [] ==> files.last == -1
    ensures fs != [] ==> files.last in Elements(fs) && 0 <= files.last < |s.fileIndex|
  {
    FileSegBounds(s.fileIndex, files.first, fs, -1);
    if fs != [] { assert fs[|fs| - 1] in fs; }
  }

  /** A directory just parsed into the store: its record `r`, its files `gs` and its
      subdirectories `k` are all new, and its header is complete. */
  ghost predicate BuiltDirectory(s: Store, s': Store, r: nat, gs: seq<nat>, k: Forest) {
    && Grown(s, s') && r == |s.dirRecords| && Ready(s', r, gs, k)
    && Fresh(Cells(k), |s.dirIndex|, |s'.dirIndex|)
    && Fresh({r} + Records(k), |s.dirRecords|, |s'.dirRecords|)
    && Fresh(Elements(gs) + FileCells(k), |s.fileIndex|, |s'.fileIndex|)
    && s'.dirRecords[r].totalFiles == |gs| + FileTotal(k) && s'.dirRecords[r].totalDirs == Size(k)
    && TotalsTrue(s', k) && SelectionsValid(s, s')
  }

  /** Completing the header that was reserved before the children were read. */
  lemma HeaderCompleted(
    s: Store, s0: Store, s1: Store, s2: Store, h0: DirRecord, h: DirRecord, r: nat, gs: seq<nat>, k: Forest,
    files: IndexChain, dirs: IndexChain)
    requires r == |s.dirRecords| && s0 == s.(dirRecords := s.dirRecords + [h0])
    requires Built(s0, s1, gs, k) && ChainOfFiles(s1, files, gs) && ChainOfDirs(s1, dirs, k)
    requires r < |s1.dirRecords| && s2 == s1.(dirRecords := s1.dirRecords[r := h])
    requires h.fileFirst == files.first && h.fileCount == files.count && h.dirFirst == dirs.first
             && h.dirCount == dirs.count
    requires h.totalFiles == |gs| + FileTotal(k) && h.totalDirs == Size(k)
    ensures BuiltDirectory(s, s2, r, gs, k)
    ensures FilesAt(s2, gs) == FilesAt(s1, gs) && Value(s2, k) == Value(s1, k)
  {
    hide DirSeg, FileSeg, Cells, Records, FileCells, Separated, TotalsTrue, Value, FilesAt, FileAt, InRecords, Elements,
         Touches, Distinct;
    assert r !in Records(k);
    HeaderReady(s1, s2, r, h, gs, k, files, dirs);
    FreshBelow(Records(k), r, |s1.dirRecords|);
    assert s.dirRecords <= s0.dirRecords <= s1.dirRecords;
    assert s.dirRecords <= s2.dirRecords;
    hide Holds, Fresh, Ready;
  }

  lemma FreshBelow(cells: set<nat>, r: nat, n: nat)
    requires Fresh(cells, r + 1, n) && r < n
    ensures Fresh({r} + cells, r, n)
  {
  }

  lemma HeaderReady(
    s1: Store, s2: Store, r: nat, h: DirRecord, gs: seq<nat>, k: Forest, files: IndexChain, dirs: IndexChain)
    requires ChainOfFiles(s1, files, gs) && ChainOfDirs(s1, dirs, k)
    requires Distinct(gs) && Elements(gs) !! FileCells(k) && Separated(k) && r !in Records(k)
    requires FilesIn(s1, Elements(gs)) && FilesPresent(s1, k)
    requires r < |s1.dirRecords| && s2 == s1.(dirRecords := s1.dirRecords[r := h])
    requires h.fileFirst == files.first && h.fileCount == files.count && h.dirFirst == dirs.first
             && h.dirCount == dirs.count
    ensures Ready(s2, r, gs, k) && FilesAt(s2, gs) == FilesAt(s1, gs) && Value(s2, k) == Value(s1, k)
    ensures TotalsTrue(s1, k) ==> TotalsTrue(s2, k)
  {
    hide DirSeg, FileSeg, Cells, Records, FileCells, Separated, TotalsTrue, Value, FilesAt, FileAt, InRecords, Elements,
         Distinct;
    assert Agree(s1, s2, k);
    JoinedHeader(s1, files, gs, dirs, k, h);
    FrameHolds(s1, s2, h, gs, k);
  }

  /** One more directory at the end of the directory being built. */
  lemma BuiltDir(
    s0: Store, s: Store, s1: Store, s': Store, fs: seq<nat>, f: Forest, files: IndexChain, dirs: IndexChain,
    r: nat, gs: seq<nat>, k: Forest, e: DirCell)
    requires Built(s0, s, fs, f) && ChainOfFiles(s, files, fs) && ChainOfDirs(s, dirs, f)
    requires BuiltDirectory(s, s1, r, gs, k)
    requires e.next == -1 && e.record == r && e.selection >= -1
    requires s' == s1.(dirIndex := PushDir(s1.dirIndex, dirs, e))
    ensures var n := |s1.dirIndex|;
            var one := Node(n, r, gs, k, Nil);
            && Built(s0, s', fs, Concat(f, one))
            && ChainOfFiles(s', files, fs) && ChainOfDirs(s', Pushed(dirs, n), Concat(f, one))
            && FilesAt(s', fs) == FilesAt(s, fs)
            && Value(s', Concat(f, one)) ==
               D.Append(Value(s, f), D.Dir(NameAt(s1, r), FilesAt(s1, gs), Value(s1, k), D.Nil))
  {
    hide DirSeg, FileSeg, Separated, TotalsTrue, Value, Cells, Records, FileCells, Ready, Elements, FilesAt;
    var n := |s1.dirIndex|;
    var one := Node(n, r, gs, k, Nil);
    OldKept(s0, s, s1, s', fs, f, files, dirs, r, gs, k, e);
    OneBuilt(s, s1, s', f, dirs, r, gs, k, e);
    FreshJoin(Cells(f), Cells(one), |s0.dirIndex|, |s.dirIndex|, |s'.dirIndex|);
    FreshJoin(Records(f), Records(one), |s0.dirRecords|, |s.dirRecords|, |s'.dirRecords|);
    FreshJoin(Elements(fs) + FileCells(f), FileCells(one), |s0.fileIndex|, |s.fileIndex|, |s'.fileIndex|);
    hide Fresh;
    ConcatFootprint(f, one);
    ConcatShape(f, one);
    ConcatSeparated(f, one);
    ConcatValue(s', f, one);
    ConcatTotals(s', f, one);
    assert Elements(fs) + FileCells(f) + FileCells(one) == Elements(fs) + FileCells(Concat(f, one));
    assert Elements(fs) !! FileCells(Concat(f, one)) && Apart(f, one);
    assert FilesPresent(s', Concat(f, one));
    OneChained(s', f, one, n, dirs);
  }

  lemma OneChained(s: Store, f: Forest, one: Forest, n: nat, dirs: IndexChain)
    requires DirSeg(s, f, if f.Nil? then n else dirs.first, n) && DirSeg(s, one, n, -1)
    requires one.Node? && one.rest.Nil? && one.cell == n
    requires dirs.count == Length(f) && dirs.last == Last(f) && (dirs.last >= 0 <==> f.Node?)
    ensures ChainOfDirs(s, Pushed(dirs, n), Concat(f, one))
  {
    hide DirSeg;
    ConcatShape(f, one);
    DirSegJoin(s, if f.Nil? then n else dirs.first, f, n, one, -1);
  }

  /** The new directory by itself. */
  lemma OneBuilt(
    s: Store, s1: Store, s': Store, f: Forest, dirs: IndexChain, r: nat, gs: seq<nat>, k: Forest, e: DirCell)
    requires BuiltDirectory(s, s1, r, gs, k) && dirs.last < |s.dirIndex|
    requires e.next == -1 && e.record == r
    requires s' == s1.(dirIndex := PushDir(s1.dirIndex, dirs, e))
    ensures var n := |s1.dirIndex|;
            var one := Node(n, r, gs, k, Nil);
            && Laid(s', one, n, -1) && TotalsTrue(s', one)
            && Value(s', one) == D.Dir(NameAt(s1, r), FilesAt(s1, gs), Value(s1, k), D.Nil)
            && Fresh(Cells(one), |s.dirIndex|, |s'.dirIndex|) && Fresh(Records(one), |s.dirRecords|, |s'.dirRecords|)
            && Fresh(FileCells(one), |s.fileIndex|, |s'.fileIndex|)
  {
    var n := |s1.dirIndex|;
    var one := Node(n, r, gs, k, Nil);
    OneFootprint(n, r, gs, k);
    FreshAdd(Cells(k), |s.dirIndex|, n);
    assert s'.dirIndex[n] == e && |s'.dirIndex| == n + 1;
    assert Agree(s1, s', k);
    hide Separated, Cells, Records, FileCells, Elements, Fresh;
    FrameHolds(s1, s', s1.dirRecords[r], gs, k);
    assert DirSeg(s', Nil, -1, -1);
    assert DirSeg(s', one, n, -1);
    hide DirSeg, Holds;
    OneSeparated(n, r, gs, k);
  }

  lemma OneFootprint(n: nat, r: nat, gs: seq<nat>, k: Forest)
    ensures var one := Node(n, r, gs, k, Nil);
            Cells(one) == Cells(k) + {n} && Records(one) == {r} + Records(k)
            && FileCells(one) == Elements(gs) + FileCells(k)
  {
  }

  lemma OneSeparated(n: nat, r: nat, gs: seq<nat>, k: Forest)
    requires n !in Cells(k) && r !in Records(k) && Distinct(gs) && Elements(gs) !! FileCells(k) && Separated(k)
    ensures Separated(Node(n, r, gs, k, Nil))
  {
  }

  /** What was there before, with the chain now leading to the new cell. */
  lemma OldKept(
    s0: Store, s: Store, s1: Store, s': Store, fs: seq<nat>, f: Forest, files: IndexChain, dirs: IndexChain,
    r: nat, gs: seq<nat>, k: Forest, e: DirCell)
    requires Built(s0, s, fs, f) && ChainOfFiles(s, files, fs) && ChainOfDirs(s, dirs, f)
    requires BuiltDirectory(s, s1, r, gs, k) && e.selection >= -1
    requires s' == s1.(dirIndex := PushDir(s1.dirIndex, dirs, e))
    ensures ChainOfFiles(s', files, fs) && FilesAt(s', fs) == FilesAt(s, fs) && FilesIn(s', Elements(fs))
    ensures var n := |s1.dirIndex|;
            DirSeg(s', f, if f.Nil? then n else dirs.first, n) && FilesPresent(s', f)
    ensures Value(s', f) == Value(s, f) && TotalsTrue(s', f)
    ensures dirs.last < |s.dirIndex| && (dirs.last >= 0 <==> f.Node?)
    ensures Grown(s0, s') && SelectionsValid(s0, s')
  {
    hide FileSeg, Separated, Cells, Records, FileCells, Elements, Ready, FileAt;
    var n := |s1.dirIndex|;
    var grown := s1.(dirIndex := s1.dirIndex + [e]);
    FrameAll(s, grown, fs, f, files, dirs);
    if f.Node? {
      LastIn(f);
      DirSegRedirect(grown, f, dirs.first, -1, n);
      assert s' == Relink(grown, dirs.last, n);
      assert dirs.last >= |s0.dirIndex|;
    } else {
      LastNil(f);
      assert s' == grown;
    }
    RelinkKept(grown, s', fs, f, dirs.last, n);
    assert s0.dirIndex <= s'.dirIndex;
  }

  lemma LastNil(f: Forest)
    requires f.Nil?
    ensures Last(f) == -1
  {
  }

  lemma RelinkKept(s: Store, s': Store, fs: seq<nat>, f: Forest, cell: int, next: int)
    requires s' == s || s' == Relink(s, cell, next)
    ensures Value(s', f) == Value(s, f) && FilesAt(s', fs) == FilesAt(s, fs)
    ensures FilesPresent(s, f) ==> FilesPresent(s', f)
    ensures FilesIn(s, Elements(fs)) ==> FilesIn(s', Elements(fs))
    ensures TotalsTrue(s, f) ==> TotalsTrue(s', f)
  {
    RelinkTouches(s, cell, next);
    var c := {Max(cell, 0)};
    if s' != s {
      TouchesValue(s, s', f, c, {}, {});
      TouchesFiles(s, s', fs, c, {}, {});
    }
    TotalsKept(s, s', f);
  }

  lemma {:induction false} TotalsKept(s: Store, s': Store, f: Forest)
    requires s'.dirRecords == s.dirRecords
    ensures TotalsTrue(s, f) ==> TotalsTrue(s', f)
  {
    match f case Nil => case Node(_, _, _, k, t) => TotalsKept(s, s', k); TotalsKept(s, s', t);
  }

  /** Growth keeps a whole directory in the making. */
  lemma FrameAll(s: Store, s': Store, fs: seq<nat>, f: Forest, files: IndexChain, dirs: IndexChain)
    requires Grown(s, s') && ChainOfFiles(s, files, fs) && ChainOfDirs(s, dirs, f)
    requires FilesIn(s, Elements(fs)) && FilesPresent(s, f)
    ensures ChainOfFiles(s', files, fs) && ChainOfDirs(s', dirs, f)
    ensures FilesIn(s', Elements(fs)) && FilesPresent(s', f)
    ensures FilesAt(s', fs) == FilesAt(s, fs) && Value(s', f) == Value(s, f)
    ensures TotalsTrue(s, f) ==> TotalsTrue(s', f)
  {
    assert forall i :: i in fs <==> i in Elements(fs);
    FrameFiles(s, s', files.first, fs, -1);
    FrameDirs(s, s', f, dirs.first, -1);
  }

  lemma NothingBuilt(s: Store, items: Items)
    ensures Built(s, s, [], Nil) && ChainOfFiles(s, EmptyChain, []) && ChainOfDirs(s, EmptyChain, Nil)
    ensures FilesAt(s, []) + ItemFiles(items) == ItemFiles(items)
    ensures D.Append(Value(s, Nil), ItemDirs(items)) == ItemDirs(items)
    ensures FileTotal(Nil) == 0 && Size(Nil) == 0
  {
    assert FilesAt(s, []) == [] && Value(s, Nil) == D.Nil;
  }

  /** Chains end inside their index. */
  lemma ChainEnds(s: Store, files: IndexChain, fs: seq<nat>, dirs: IndexChain, f: Forest)
    requires ChainOfFiles(s, files, fs) && ChainOfDirs(s, dirs, f)
    ensures files.last < |s.fileIndex| && dirs.last < |s.dirIndex|
  {
    LastOfChain(s, files, fs);
    LastInIndex(s, f, dirs.first, -1);
  }

  lemma {:induction false} LastInIndex(s: Store, f: Forest, first: int, stop: int)
    requires DirSeg(s, f, first, stop)
    ensures Last(f) < |s.dirIndex|
    decreases f
  {
    match f case Nil => case Node(c, _, _, _, t) => LastInIndex(s, t, s.dirIndex[c].next, stop);
  }

  lemma BuiltLonger(s: Store, s1: Store, r: nat, gs: seq<nat>, k: Forest)
    requires BuiltDirectory(s, s1, r, gs, k)
    ensures |s1.dirIndex| >= |s.dirIndex|
  {
  }

  lemma BuiltRecords(s0: Store, s: Store, fs: seq<nat>, f: Forest)
    requires Built(s0, s, fs, f)
    ensures |s.dirRecords| >= |s0.dirRecords|
  {
  }

  lemma OneMore(f: Forest, one: Forest, k: D.Dirs<Record>, name: string, files: seq<Record>, rest: D.Dirs<Record>)
    requires one.Node? && one.rest.Nil?
    ensures Size(Concat(f, one)) == Size(f) + 1 + Size(one.kids)
    ensures FileTotal(Concat(f, one)) == FileTotal(f) + |one.files| + FileTotal(one.kids)
    ensures D.Append(D.Dir(name, files, k, D.Nil), rest) == D.Dir(name, files, k, rest)
  {
    ConcatShape(f, one);
    assert D.Append(D.Nil, rest) == rest;
  }
}
