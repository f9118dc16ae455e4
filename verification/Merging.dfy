/** The merge of several schemas as a whole: sources are collected behind one another, joined
    under one root, and normalised. */
module Merging {
  import opened Common
  import opened XmlEvents
  import opened IndexStore
  import opened ChainSurgery
  import opened MergeProof
  import opened RecordUid
  import opened Relocation
  import opened Building
  import D = DirectoryTree

  /** The root's chains while sources are appended; record 0 is the root's own header. */
  ghost predicate Collected(s: Store, files: IndexChain, dirs: IndexChain, fs: seq<nat>, f: Forest) {
    && ChainOfFiles(s, files, fs) && ChainOfDirs(s, dirs, f)
    && Distinct(fs) && Elements(fs) !! FileCells(f) && Separated(f)
    && FilesIn(s, Elements(fs)) && FilesPresent(s, f)
    && |s.dirRecords| >= 1
    && Fresh(Cells(f), 0, |s.dirIndex|) && Fresh(Records(f), 1, |s.dirRecords|)
    && Fresh(Elements(fs) + FileCells(f), 0, |s.fileIndex|)
  }

  /** File cell `i` holds a record that was given UID `i + 1`. */
  ghost predicate Numbered(s: Store, i: nat) { RewrittenAs(FileAt(s, i), i + 1) }

  /** This record came out of the rewriter under this UID. */
  ghost predicate RewrittenAs(record: Record, uid: int) {
    exists source: Record :: Rewritten(source, uid) == Some(record)
  }

  ghost predicate AllNumbered(s: Store) { forall i: nat :: i < |s.fileIndex| ==> Numbered(s, i) }

  /** Files and directories of all inputs, one after the other. */
  function AllFiles(inputs: seq<Items>): seq<Record> {
    if inputs == [] then [] else AllFiles(inputs[..|inputs| - 1]) + ItemFiles(inputs[|inputs| - 1])
  }

  function AllDirs(inputs: seq<Items>): D.Dirs<Record> {
    if inputs == [] then D.Nil else D.Append(AllDirs(inputs[..|inputs| - 1]), ItemDirs(inputs[|inputs| - 1]))
  }

  /** The finished merge: record 0 is a root holding the files `fs` and the directories `g`. */
  ghost predicate MergedStore(s: Store, fs: seq<nat>, g: Forest, inputs: seq<Items>, rootName: string, nextUid: int) {
    && Ready(s, 0, fs, g) && s.dirRecords[0].name == Some(rootName)
    // what it means: the inputs' files, and the merge of their directories, up to file UIDs
    && Renumbered(AllFiles(inputs), FilesAt(s, fs)) && SameTree(D.Normalize(AllDirs(inputs)), Value(s, g))
    // totals
    && s.dirRecords[0].totalFiles == |fs| + FileTotal(g) && s.dirRecords[0].totalDirs == Size(g) && TotalsTrue(s, g)
    // every file is reachable, once, and the UIDs 1 .. nextUid - 1 are each used once
    && Complete(Elements(fs) + FileCells(g), |s.fileIndex|) && AllNumbered(s) && Packed(s)
    && DirUids(s, g) == Range(|s.fileIndex| + 1, nextUid)
  }

  // ----- one source

  /** The appended source, at its new place. */
  lemma SourceShifted(src: Source, sfs: seq<nat>, sf: Forest, s: Store, b: Bases, uid: int)
    requires WellFormed(src, sfs, sf) && Relocated(src.store, s, b, uid)
    ensures var fs', f' := ShiftFiles(sfs, b.files), ShiftForest(sf, b);
            && ChainOfFiles(s, IndexChain(Shifted(src.files.first, b.files), Shifted(src.files.last, b.files),
                                          src.files.count), fs')
            && ChainOfDirs(s, IndexChain(Shifted(src.dirs.first, b.cells), Shifted(src.dirs.last, b.cells),
                                         src.dirs.count), f')
            && Separated(f') && Distinct(fs') && Elements(fs') !! FileCells(f')
            && Renumbered(FilesAt(src.store, sfs), FilesAt(s, fs'))
            && SameTree(Value(src.store, sf), Value(s, f'))
  {
    hide DirSeg, FileSeg, Cells, Records, FileCells, Separated, Relocated, Value, FilesAt, SameTree, Renumbered,
         InRecords;
    ShiftedSeg(src.store, s, b, uid, src.files.first, sfs);
    ShiftedDirs(src.store, s, b, uid, sf, src.dirs.first);
    ShiftShape(sf, b);
    ShiftSeparated(sf, b);
    ShiftFilesApart(sfs, sf, b);
    FileSegBounds(src.store.fileIndex, src.files.first, sfs, -1);
    RelocatedFiles(src.store, s, b, uid, sfs);
    RelocatedValue(src.store, s, b, uid, sf, src.dirs.first);
  }

  /** The appended source occupies exactly the cells and records behind the bases. */
  lemma SourceFresh(src: Source, sfs: seq<nat>, sf: Forest, s: Store, b: Bases, uid: int)
    requires WellFormed(src, sfs, sf) && Relocated(src.store, s, b, uid)
    ensures var fs', f' := ShiftFiles(sfs, b.files), ShiftForest(sf, b);
            && Fresh(Cells(f'), b.cells, |s.dirIndex|) && Fresh(Records(f'), b.records, |s.dirRecords|)
            && Fresh(Elements(fs') + FileCells(f'), b.files, |s.fileIndex|)
            && FilesIn(s, Elements(fs')) && FilesPresent(s, f')
  {
    hide DirSeg, FileSeg, Cells, Records, FileCells, Separated, InRecords, FileAt, Rewritten;
    var fs', f' := ShiftFiles(sfs, b.files), ShiftForest(sf, b);
    forall x: nat ensures x in Cells(f') <==> b.cells <= x < |s.dirIndex| { InShiftCells(sf, b, x); }
    forall x: nat ensures x in Records(f') <==> b.records <= x < |s.dirRecords| { InShiftRecords(sf, b, x); }
    forall x: nat ensures x in Elements(fs') + FileCells(f') <==> b.files <= x < |s.fileIndex| {
      InShiftFiles(sfs, b.files, x);
      InShiftFileCells(sf, b, x);
      if x >= b.files {
        assert x - b.files in Elements(sfs) + FileCells(sf) <==> x - b.files < |src.store.fileIndex|;
      }
    }
    forall x: nat | b.files <= x < |s.fileIndex| ensures InRecords(s, s.fileIndex[x]) {
      assert RelocatedFile(src.store, s, b, uid, x - b.files);
    }
    assert forall x :: x in Elements(fs') ==> x in Elements(fs') + FileCells(f');
    assert forall x :: x in FileCells(f') ==> x in Elements(fs') + FileCells(f');
  }

  /** Root chains joined with the appended source's chains: first what is where. */
  lemma CollectedStep(
    s: Store, s1: Store, s2: Store, files: IndexChain, dirs: IndexChain, fs: seq<nat>, f: Forest,
    files': IndexChain, dirs': IndexChain, fs': seq<nat>, f': Forest)
    requires Collected(s, files, dirs, fs, f) && Grown(s, s1)
    requires ChainOfFiles(s1, files', fs') && ChainOfDirs(s1, dirs', f')
    requires Separated(f') && Distinct(fs') && Elements(fs') !! FileCells(f')
    requires FilesIn(s1, Elements(fs')) && FilesPresent(s1, f')
    requires Fresh(Cells(f'), |s.dirIndex|, |s1.dirIndex|) && Fresh(Records(f'), |s.dirRecords|, |s1.dirRecords|)
    requires Fresh(Elements(fs') + FileCells(f'), |s.fileIndex|, |s1.fileIndex|)
    requires s2 == s1.(fileIndex := JoinFiles(s1.fileIndex, files, files').0,
                       dirIndex := JoinDirs(s1.dirIndex, dirs, dirs').0)
    ensures Collected(s2, JoinFiles(s1.fileIndex, files, files').1, JoinDirs(s1.dirIndex, dirs, dirs').1, fs + fs',
                      Concat(f, f'))
  {
    CollectedParts(s, files, dirs, fs, f);
    hide *;
    CollectedShape(s, s1, fs, f, fs', f');
    FrameGrown(s, s1, fs, f, files, dirs);
    JoinedChains(s1, s2, files, dirs, fs, f, files', dirs', fs', f');
    JoinedValue(s1, s2, fs, f, fs', f', Cells(f), Elements(fs));
    TouchesLengths(s1, s2, Cells(f), {}, Elements(fs));
    GrownLengths(s, s1);
    CollectedIntro(s2, JoinFiles(s1.fileIndex, files, files').1, JoinDirs(s1.dirIndex, dirs, dirs').1, fs + fs',
                   Concat(f, f'));
  }

  /** Joining only touches the root's own links. */
  lemma CollectedTouches(
    s: Store, s1: Store, s2: Store, files: IndexChain, dirs: IndexChain, fs: seq<nat>, f: Forest,
    files': IndexChain, dirs': IndexChain, fs': seq<nat>, f': Forest)
    requires Collected(s, files, dirs, fs, f) && Grown(s, s1)
    requires ChainOfFiles(s1, files', fs') && ChainOfDirs(s1, dirs', f')
    requires Separated(f') && Distinct(fs') && Elements(fs') !! FileCells(f')
    requires FilesIn(s1, Elements(fs')) && FilesPresent(s1, f')
    requires Fresh(Cells(f'), |s.dirIndex|, |s1.dirIndex|) && Fresh(Records(f'), |s.dirRecords|, |s1.dirRecords|)
    requires Fresh(Elements(fs') + FileCells(f'), |s.fileIndex|, |s1.fileIndex|)
    requires s2 == s1.(fileIndex := JoinFiles(s1.fileIndex, files, files').0,
                       dirIndex := JoinDirs(s1.dirIndex, dirs, dirs').0)
    ensures Touches(s1, s2, Cells(f), {}, Elements(fs))
  {
    CollectedParts(s, files, dirs, fs, f);
    hide *;
    CollectedShape(s, s1, fs, f, fs', f');
    FrameGrown(s, s1, fs, f, files, dirs);
    JoinedChains(s1, s2, files, dirs, fs, f, files', dirs', fs', f');
  }

  /** And what it means. */
  lemma CollectedValue(
    s: Store, s1: Store, s2: Store, files: IndexChain, dirs: IndexChain, fs: seq<nat>, f: Forest, fs': seq<nat>,
      f': Forest)
    requires Collected(s, files, dirs, fs, f) && Grown(s, s1) && Touches(s1, s2, Cells(f), {}, Elements(fs))
    requires FilesIn(s1, Elements(fs')) && FilesPresent(s1, f')
    ensures FilesAt(s2, fs + fs') == FilesAt(s, fs) + FilesAt(s1, fs')
    ensures Value(s2, Concat(f, f')) == D.Append(Value(s, f), Value(s1, f'))
  {
    CollectedParts(s, files, dirs, fs, f);
    hide *;
    FrameGrown(s, s1, fs, f, files, dirs);
    JoinedValue(s1, s2, fs, f, fs', f', Cells(f), Elements(fs));
  }

  lemma TouchesLengths(s: Store, s': Store, cells: set<nat>, records: set<nat>, files: set<nat>)
    requires Touches(s, s', cells, records, files)
    ensures |s'.fileIndex| == |s.fileIndex| && |s'.dirIndex| == |s.dirIndex| && |s'.dirRecords| == |s.dirRecords|
  {
  }

  lemma GrownLengths(s: Store, s': Store)
    requires Grown(s, s')
    ensures |s'.fileIndex| >= |s.fileIndex| && |s'.dirIndex| >= |s.dirIndex| && |s'.dirRecords| >= |s.dirRecords|
  {
  }

  lemma CollectedParts(s: Store, files: IndexChain, dirs: IndexChain, fs: seq<nat>, f: Forest)
    requires Collected(s, files, dirs, fs, f)
    ensures ChainOfFiles(s, files, fs) && ChainOfDirs(s, dirs, f) && |s.dirRecords| >= 1
    ensures Distinct(fs) && Elements(fs) !! FileCells(f) && Separated(f)
    ensures FilesIn(s, Elements(fs)) && FilesPresent(s, f)
    ensures Fresh(Cells(f), 0, |s.dirIndex|) && Fresh(Records(f), 1, |s.dirRecords|)
    ensures Fresh(Elements(fs) + FileCells(f), 0, |s.fileIndex|)
  {
  }

  lemma CollectedIntro(s: Store, files: IndexChain, dirs: IndexChain, fs: seq<nat>, f: Forest)
    requires ChainOfFiles(s, files, fs) && ChainOfDirs(s, dirs, f) && |s.dirRecords| >= 1
    requires Distinct(fs) && Elements(fs) !! FileCells(f) && Separated(f)
    requires FilesIn(s, Elements(fs)) && FilesPresent(s, f)
    requires Fresh(Cells(f), 0, |s.dirIndex|) && Fresh(Records(f), 1, |s.dirRecords|)
    requires Fresh(Elements(fs) + FileCells(f), 0, |s.fileIndex|)
    ensures Collected(s, files, dirs, fs, f)
  {
  }

  lemma CollectedShape(s: Store, s1: Store, fs: seq<nat>, f: Forest, fs': seq<nat>, f': Forest)
    requires Grown(s, s1) && |s.dirRecords| >= 1
    requires Distinct(fs) && Distinct(fs') && Separated(f) && Separated(f')
    requires Elements(fs) !! FileCells(f) && Elements(fs') !! FileCells(f')
    requires Fresh(Cells(f), 0, |s.dirIndex|) && Fresh(Records(f), 1, |s.dirRecords|)
    requires Fresh(Elements(fs) + FileCells(f), 0, |s.fileIndex|)
    requires Fresh(Cells(f'), |s.dirIndex|, |s1.dirIndex|) && Fresh(Records(f'), |s.dirRecords|, |s1.dirRecords|)
    requires Fresh(Elements(fs') + FileCells(f'), |s.fileIndex|, |s1.fileIndex|)
    ensures (Elements(fs) + FileCells(f)) !! (Elements(fs') + FileCells(f'))
    ensures Cells(f) !! Cells(f') && Records(f) !! Records(f')
    ensures var gs, g := fs + fs', Concat(f, f');
            && Distinct(gs) && Separated(g) && Elements(gs) !! FileCells(g)
            && Fresh(Cells(g), 0, |s1.dirIndex|) && Fresh(Records(g), 1, |s1.dirRecords|)
            && Fresh(Elements(gs) + FileCells(g), 0, |s1.fileIndex|)
  {
    hide Cells, Records, FileCells, Separated, Elements, Distinct;
    FreshJoin(Cells(f), Cells(f'), 0, |s.dirIndex|, |s1.dirIndex|);
    FreshJoin(Records(f), Records(f'), 1, |s.dirRecords|, |s1.dirRecords|);
    FreshJoin(Elements(fs) + FileCells(f), Elements(fs') + FileCells(f'), 0, |s.fileIndex|, |s1.fileIndex|);
    hide Fresh;
    JoinedShape(fs, f, fs', f');
  }

  lemma JoinedValue(
    s1: Store, s2: Store, fs: seq<nat>, f: Forest, fs': seq<nat>, f': Forest, cells: set<nat>, files: set<nat>)
    requires Touches(s1, s2, cells, {}, files)
    requires FilesIn(s1, Elements(fs)) && FilesIn(s1, Elements(fs')) && FilesPresent(s1, f) && FilesPresent(s1, f')
    ensures FilesAt(s2, fs + fs') == FilesAt(s1, fs) + FilesAt(s1, fs')
    ensures Value(s2, Concat(f, f')) == D.Append(Value(s1, f), Value(s1, f'))
    ensures FilesIn(s2, Elements(fs + fs')) && FilesPresent(s2, Concat(f, f'))
  {
    hide Touches, FilesAt, Value, Cells, Records, FileCells, InRecords;
    FilesAtAppend(s2, fs, fs');
    ConcatValue(s2, f, f');
    ConcatTotals(s2, f, f');
    ConcatFootprint(f, f');
    TouchesFiles(s1, s2, fs, cells, {}, files);
    TouchesFiles(s1, s2, fs', cells, {}, files);
    TouchesValue(s1, s2, f, cells, {}, files);
    TouchesValue(s1, s2, f', cells, {}, files);
    TouchesPresent(s1, s2, Elements(fs), cells, {}, files);
    TouchesPresent(s1, s2, Elements(fs'), cells, {}, files);
    TouchesPresent(s1, s2, FileCells(f), cells, {}, files);
    TouchesPresent(s1, s2, FileCells(f'), cells, {}, files);
  }

  lemma FrameGrown(s: Store, s1: Store, fs: seq<nat>, f: Forest, files: IndexChain, dirs: IndexChain)
    requires Grown(s, s1) && ChainOfFiles(s, files, fs) && ChainOfDirs(s, dirs, f)
    requires FilesIn(s, Elements(fs)) && FilesPresent(s, f)
    ensures ChainOfFiles(s1, files, fs) && ChainOfDirs(s1, dirs, f)
    ensures FilesIn(s1, Elements(fs)) && FilesPresent(s1, f)
    ensures FilesAt(s1, fs) == FilesAt(s, fs) && Value(s1, f) == Value(s, f)
  {
    FrameAll(s, s1, fs, f, files, dirs);
  }

  lemma JoinedShape(fs: seq<nat>, f: Forest, fs': seq<nat>, f': Forest)
    requires Distinct(fs) && Distinct(fs') && Separated(f) && Separated(f')
    requires Elements(fs) !! FileCells(f) && Elements(fs') !! FileCells(f')
    requires (Elements(fs) + FileCells(f)) !! (Elements(fs') + FileCells(f'))
    requires Cells(f) !! Cells(f') && Records(f) !! Records(f')
    ensures Distinct(fs + fs') && Separated(Concat(f, f')) && Elements(fs + fs') !! FileCells(Concat(f, f'))
    ensures Elements(fs + fs') == Elements(fs) + Elements(fs')
    ensures FileCells(Concat(f, f')) == FileCells(f) + FileCells(f')
    ensures Elements(fs + fs') + FileCells(Concat(f, f')) == (Elements(fs) + FileCells(f))
            + (Elements(fs') + FileCells(f'))
    ensures Cells(Concat(f, f')) == Cells(f) + Cells(f') && Records(Concat(f, f')) == Records(f) + Records(f')
  {
    hide Cells, Records, FileCells, Separated;
    DistinctAppend(fs, fs');
    ConcatSeparated(f, f');
    ConcatFootprint(f, f');
    assert Elements(fs + fs') == Elements(fs) + Elements(fs');
  }

  lemma JoinedChains(
    s1: Store, s2: Store, files: IndexChain, dirs: IndexChain, fs: seq<nat>, f: Forest,
    files': IndexChain, dirs': IndexChain, fs': seq<nat>, f': Forest)
    requires ChainOfFiles(s1, files, fs) && ChainOfDirs(s1, dirs, f)
    requires ChainOfFiles(s1, files', fs') && ChainOfDirs(s1, dirs', f')
    requires Distinct(fs) && Separated(f) && FilesPresent(s1, f) && FilesPresent(s1, f')
    requires Elements(fs) !! FileCells(f)
    requires (Elements(fs) + FileCells(f)) !! (Elements(fs') + FileCells(f'))
    requires Cells(f) !! Cells(f') && Records(f) !! Records(f')
    requires s2 == s1.(fileIndex := JoinFiles(s1.fileIndex, files, files').0,
                       dirIndex := JoinDirs(s1.dirIndex, dirs, dirs').0)
    ensures ChainOfFiles(s2, JoinFiles(s1.fileIndex, files, files').1, fs + fs')
    ensures ChainOfDirs(s2, JoinDirs(s1.dirIndex, dirs, dirs').1, Concat(f, f'))
    ensures Touches(s1, s2, Cells(f), {}, Elements(fs))
  {
    hide DirSeg, FileSeg, Cells, Records, FileCells, Separated, Value, FilesAt, InRecords, FileAt, Elements;
    var a := s1.(dirIndex := JoinDirs(s1.dirIndex, dirs, dirs').0);
    JoinFilesHolds(s1, files, fs, files', fs');
    JoinDirsHolds(s1, dirs, f, dirs', f');
    ConcatFootprint(f, f');
    TouchesPresent(s1, a, FileCells(f), Cells(f), {}, {});
    TouchesPresent(s1, a, FileCells(f'), Cells(f), {}, {});
    assert FilesPresent(a, Concat(f, f'));
    assert Agree(a, s2, Concat(f, f'));
    FrameDirs(a, s2, Concat(f, f'), JoinDirs(s1.dirIndex, dirs, dirs').1.first, -1);
  }

  // ----- UIDs

  lemma NumberedKept(s: Store, s1: Store, cells: set<nat>, records: set<nat>, files: set<nat>)
    requires AllNumbered(s) && Touches(s, s1, cells, records, files)
    ensures AllNumbered(s1)
  {
    hide Rewritten;
    forall i: nat | i < |s1.fileIndex| ensures Numbered(s1, i) {
      assert Numbered(s, i);
      TouchesFiles(s, s1, [i], cells, records, files);
      assert FilesAt(s, [i])[0] == FileAt(s, i) && FilesAt(s1, [i])[0] == FileAt(s1, i);
    }
  }

  lemma NumberedSource(s: Store, s1: Store, src: Store, b: Bases)
    requires AllNumbered(s) && Grown(s, s1) && Relocated(src, s1, b, |s.fileIndex| + 1) && b.files == |s.fileIndex|
    requires forall i :: 0 <= i < |s.fileIndex| ==> InRecords(s, s.fileIndex[i])
    ensures AllNumbered(s1)
  {
    hide Rewritten;
    forall i: nat | i < |s1.fileIndex| ensures Numbered(s1, i) {
      if i < |s.fileIndex| {
        assert Numbered(s, i);
        FileKept(s, s1, i);
      } else {
        assert RelocatedFile(src, s1, b, |s.fileIndex| + 1, i - b.files);
      }
    }
  }

  lemma CollectedPresent(s: Store, files: IndexChain, dirs: IndexChain, fs: seq<nat>, f: Forest)
    requires Collected(s, files, dirs, fs, f)
    ensures forall i :: 0 <= i < |s.fileIndex| ==> InRecords(s, s.fileIndex[i])
  {
    hide DirSeg, FileSeg, Cells, Records, FileCells, Separated, InRecords, Elements;
    forall i: nat | i < |s.fileIndex| ensures InRecords(s, s.fileIndex[i]) {
      assert i in Elements(fs) + FileCells(f);
    }
  }

  // ----- the driver's loop

  /** After some inputs were appended: what the root's chains denote, and the UIDs so far. */
  ghost predicate MergeState(s: Store, files: IndexChain, dirs: IndexChain, fs: seq<nat>, f: Forest, inputs: seq<Items>,
                             nextUid: int)
  {
    && Collected(s, files, dirs, fs, f) && Packed(s) && AllNumbered(s) && nextUid == |s.fileIndex| + 1
    && Renumbered(AllFiles(inputs), FilesAt(s, fs)) && SameTree(AllDirs(inputs), Value(s, f))
  }

  /** A parsed input: its store lays out exactly the input's items. */
  ghost predicate SourceOf(src: Source, items: Items, sfs: seq<nat>, sf: Forest) {
    WellFormed(src, sfs, sf) && FilesAt(src.store, sfs) == ItemFiles(items) && Value(src.store, sf) == ItemDirs(items)
  }

  lemma MergingStart(s: Store)
    requires s.fileIndex == [] && s.dirIndex == [] && |s.dirRecords| == 1
    ensures MergeState(s, EmptyChain, EmptyChain, [], Nil, [], 1)
  {
  }

  lemma MergingStep(
    s: Store, s1: Store, s2: Store, files: IndexChain, dirs: IndexChain, fs: seq<nat>, f: Forest,
    inputs: seq<Items>, items: Items, src: Source, sfs: seq<nat>, sf: Forest, b: Bases, nextUid: int)
    requires MergeState(s, files, dirs, fs, f, inputs, nextUid) && SourceOf(src, items, sfs, sf) && Grown(s, s1)
    requires b.files == |s.fileIndex| && b.cells == |s.dirIndex| && b.records == |s.dirRecords|
    requires Relocated(src.store, s1, b, nextUid) && Packed(s1)
    requires var files' := IndexChain(Shifted(src.files.first, b.files), Shifted(src.files.last, b.files),
                                      src.files.count);
             var dirs' := IndexChain(Shifted(src.dirs.first, b.cells), Shifted(src.dirs.last, b.cells), src.dirs.count);
             s2 == s1.(fileIndex := JoinFiles(s1.fileIndex, files, files').0,
                       dirIndex := JoinDirs(s1.dirIndex, dirs, dirs').0)
    ensures var files' := IndexChain(Shifted(src.files.first, b.files), Shifted(src.files.last, b.files),
                                     src.files.count);
            var dirs' := IndexChain(Shifted(src.dirs.first, b.cells), Shifted(src.dirs.last, b.cells), src.dirs.count);
            MergeState(s2, JoinFiles(s1.fileIndex, files, files').1, JoinDirs(s1.dirIndex, dirs, dirs').1,
                    fs + ShiftFiles(sfs, b.files), Concat(f, ShiftForest(sf, b)), inputs + [items],
                    nextUid + |src.store.fileIndex|)
  {
    hide Packed, Collected, Relocated, WellFormed, ChainOfFiles, ChainOfDirs, Grown, Touches, Fresh, FilesIn, Separated,
         Distinct, Elements, Cells, Records, FileCells, FilesAt, Value, SameTree, AllNumbered, JoinFiles, JoinDirs,
         ShiftFiles, ShiftForest, Concat, Renumbered;
    var files' := IndexChain(Shifted(src.files.first, b.files), Shifted(src.files.last, b.files), src.files.count);
    var dirs' := IndexChain(Shifted(src.dirs.first, b.cells), Shifted(src.dirs.last, b.cells), src.dirs.count);
    var fs', f' := ShiftFiles(sfs, b.files), ShiftForest(sf, b);
    SourceShifted(src, sfs, sf, s1, b, nextUid);
    SourceFresh(src, sfs, sf, s1, b, nextUid);
    CollectedStep(s, s1, s2, files, dirs, fs, f, files', dirs', fs', f');
    CollectedTouches(s, s1, s2, files, dirs, fs, f, files', dirs', fs', f');
    CollectedValue(s, s1, s2, files, dirs, fs, f, fs', f');
    CollectedPresent(s, files, dirs, fs, f);
    NumberedSource(s, s1, src.store, b);
    NumberedKept(s1, s2, Cells(f), {}, Elements(fs));
    PackedTouches(s1, s2, Cells(f), {}, Elements(fs));
    TouchesLengths(s1, s2, Cells(f), {}, Elements(fs));
    RelocatedLengths(src.store, s1, b, nextUid);
    RenumberedAppend(AllFiles(inputs), FilesAt(s, fs), ItemFiles(items), FilesAt(s1, fs'));
    SameAppend(AllDirs(inputs), Value(s, f), ItemDirs(items), Value(s1, f'));
    assert (inputs + [items])[..|inputs|] == inputs;
  }

  lemma RelocatedLengths(src: Store, s: Store, b: Bases, uid: int)
    requires Relocated(src, s, b, uid)
    ensures |s.fileIndex| == b.files + |src.fileIndex|
  {
  }

  /** From the normalised chains and the root's completed header to the merged store. */
  lemma MergingEnd(
    s: Store, s1: Store, s2: Store, files: IndexChain, dirs: IndexChain, fs: seq<nat>, f: Forest, g: Forest,
    dirs': IndexChain, inputs: seq<Items>, nextUid: int, nextUid': int, h: DirRecord, rootName: string)
    requires MergeState(s, files, dirs, fs, f, inputs, nextUid)
    requires Normalized(s, s1, f, g, dirs'.first, nextUid, nextUid') && ChainOfDirs(s1, dirs', g)
    requires |s1.dirRecords| > 0 && s2 == s1.(dirRecords := s1.dirRecords[0 := h])
    requires h.name == Some(rootName) && h.fileFirst == files.first && h.fileCount == files.count
    requires h.dirFirst == dirs'.first && h.dirCount == dirs'.count
    requires h.totalFiles == |fs| + FileTotal(g) && h.totalDirs == Size(g)
    ensures MergedStore(s2, fs, g, inputs, rootName, nextUid')
  {
    hide Packed, Normalized, Collected, Touches, ChainOfDirs, Ready, Separated, Cells, Records, FileCells, FilesAt,
         Value, DirUids, TotalsTrue, SameTree, Renumbered, D.Normalize, Elements, AllNumbered, Complete, Size,
         FileTotal, Range;
    RootReady(s, s1, s2, files, dirs, fs, f, g, dirs', nextUid, nextUid', h);
    RootValue(s, s1, s2, files, dirs, fs, f, g, dirs', nextUid, nextUid', h);
    RootNumbers(s, s1, s2, files, dirs, fs, f, g, dirs', nextUid, nextUid', h);
    RootPacked(s, s1, s2, f, g, dirs'.first, nextUid, nextUid');
    SameNormalize(AllDirs(inputs), Value(s, f));
  }

  lemma RootPacked(s: Store, s1: Store, s2: Store, f: Forest, g: Forest, first: int, uid: int, uid': int)
    requires Packed(s) && Normalized(s, s1, f, g, first, uid, uid')
    requires s2.fileIndex == s1.fileIndex && s2.fileRecords == s1.fileRecords
    ensures Packed(s2)
  {
    hide Packed;
    PackedTouches(s, s1, Cells(f), Records(f), FileCells(f));
    PackedSame(s1, s2);
  }

  lemma RootReady(
    s: Store, s1: Store, s2: Store, files: IndexChain, dirs: IndexChain, fs: seq<nat>, f: Forest, g: Forest,
    dirs': IndexChain, nextUid: int, nextUid': int, h: DirRecord)
    requires Collected(s, files, dirs, fs, f)
    requires Normalized(s, s1, f, g, dirs'.first, nextUid, nextUid') && ChainOfDirs(s1, dirs', g)
    requires |s1.dirRecords| > 0 && s2 == s1.(dirRecords := s1.dirRecords[0 := h])
    requires h.fileFirst == files.first && h.fileCount == files.count
    requires h.dirFirst == dirs'.first && h.dirCount == dirs'.count
    ensures Ready(s2, 0, fs, g) && FilesAt(s2, fs) == FilesAt(s, fs)
  {
    RootFiles(s, s1, files, dirs, fs, f, Cells(f), Records(f));
    hide DirSeg, FileSeg, Separated, Cells, Records, FileCells, FilesAt, Value, InRecords, D.Normalize, Touches,
         Distinct, DirUids, TotalsTrue;
    assert 0 !in Records(g);
    assert Elements(fs) !! FileCells(g);
    hide Elements;
    HeaderReady(s1, s2, 0, h, fs, g, files, dirs');
  }

  lemma RootValue(
    s: Store, s1: Store, s2: Store, files: IndexChain, dirs: IndexChain, fs: seq<nat>, f: Forest, g: Forest,
    dirs': IndexChain, nextUid: int, nextUid': int, h: DirRecord)
    requires Collected(s, files, dirs, fs, f)
    requires Normalized(s, s1, f, g, dirs'.first, nextUid, nextUid') && ChainOfDirs(s1, dirs', g)
    requires |s1.dirRecords| > 0 && s2 == s1.(dirRecords := s1.dirRecords[0 := h])
    requires h.fileFirst == files.first && h.fileCount == files.count
    requires h.dirFirst == dirs'.first && h.dirCount == dirs'.count
    ensures Value(s2, g) == D.Normalize(Value(s, f)) && TotalsTrue(s2, g) && DirUids(s2, g) == Range(nextUid, nextUid')
  {
    hide DirSeg, FileSeg, Separated, Cells, Records, FileCells, Value, InRecords, D.Normalize, Touches, DirUids,
         TotalsTrue, FilesIn, Elements, Distinct;
    assert 0 !in Records(f) && 0 !in Records(g);
    HeaderOnly(s1, s2, 0, h, g, dirs'.first);
  }

  lemma HeaderOnly(s1: Store, s2: Store, r: nat, h: DirRecord, g: Forest, first: int)
    requires Laid(s1, g, first, -1) && r !in Records(g) && r < |s1.dirRecords|
    requires s2 == s1.(dirRecords := s1.dirRecords[r := h])
    ensures Value(s2, g) == Value(s1, g) && DirUids(s2, g) == DirUids(s1, g)
            && (TotalsTrue(s1, g) ==> TotalsTrue(s2, g))
  {
    assert Agree(s1, s2, g);
    FrameDirs(s1, s2, g, first, -1);
  }

  lemma RootNumbers(
    s: Store, s1: Store, s2: Store, files: IndexChain, dirs: IndexChain, fs: seq<nat>, f: Forest, g: Forest,
    dirs': IndexChain, nextUid: int, nextUid': int, h: DirRecord)
    requires Collected(s, files, dirs, fs, f)
    requires Normalized(s, s1, f, g, dirs'.first, nextUid, nextUid') && ChainOfDirs(s1, dirs', g)
    requires |s1.dirRecords| > 0 && s2 == s1.(dirRecords := s1.dirRecords[0 := h])
    requires h.fileFirst == files.first && h.fileCount == files.count
    requires h.dirFirst == dirs'.first && h.dirCount == dirs'.count
    requires AllNumbered(s)
    ensures Complete(Elements(fs) + FileCells(g), |s2.fileIndex|) && AllNumbered(s2) && |s2.fileIndex| == |s.fileIndex|
  {
    hide DirSeg, FileSeg, Separated, Cells, Records, Value, InRecords, D.Normalize, DirUids, TotalsTrue, Touches,
         Numbered;
    TouchesLengths(s, s1, Cells(f), Records(f), FileCells(f));
    NumberedKept(s, s1, Cells(f), Records(f), FileCells(f));
    SameNumbers(s1, s2);
  }

  lemma SameNumbers(s: Store, s1: Store)
    requires AllNumbered(s) && s1.fileIndex == s.fileIndex && s1.fileRecords == s.fileRecords
    ensures AllNumbered(s1)
  {
    hide Rewritten;
    forall i: nat | i < |s1.fileIndex| ensures Numbered(s1, i) { assert Numbered(s, i); }
  }

  /** The root's own files are not affected by normalising its directories. */
  lemma RootFiles(
    s: Store, s1: Store, files: IndexChain, dirs: IndexChain, fs: seq<nat>, f: Forest, cells: set<nat>,
      records: set<nat>)
    requires Collected(s, files, dirs, fs, f) && Touches(s, s1, cells, records, FileCells(f))
    ensures ChainOfFiles(s1, files, fs) && FilesAt(s1, fs) == FilesAt(s, fs) && FilesIn(s1, Elements(fs))
  {
    hide DirSeg, Separated, Cells, Records, FileCells, InRecords;
    assert forall i :: i in fs <==> i in Elements(fs);
    FrameFiles(s, s1, files.first, fs, -1);
  }

  // ----- which inputs are accepted

  /** The rewriter accepts this record (under any UID, see `AcceptedAnyUid`). */
  ghost predicate Accepted(r: Record) { Rewritten(r, 1).Some? }

  ghost predicate AllAccepted(items: Items) {
    match items
    case NoMore => true
    case FileItem(r, t) => Accepted(r) && AllAccepted(t)
    case DirItem(_, _, c, t) => AllAccepted(c) && AllAccepted(t)
  }

  ghost predicate SeqAccepted(rs: seq<Record>) { forall i :: 0 <= i < |rs| ==> Accepted(rs[i]) }

  ghost predicate TreeAccepted(d: D.Dirs<Record>) {
    match d
    case Nil => true
    case Dir(_, fs, k, t) => SeqAccepted(fs) && TreeAccepted(k) && TreeAccepted(t)
  }

  lemma {:induction false} CopyAnyUid(c: CopyState, events: seq<Event>, u: int, v: int)
    ensures Copy(c, events, u).Some? <==> Copy(c, events, v).Some?
    ensures Copy(c, events, u).Some? ==> Copy(c, events, u).value.0 == Copy(c, events, v).value.0
    decreases |events|
  {
    hide DecodeGeneralRef, IntToString, UidElement;
    if events != [] {
      match CopyStep(c, events[0], u)
      case None =>
      case Some((c', _)) => CopyAnyUid(c', events[1..], u, v);
    }
  }

  lemma AcceptedAnyUid(r: Record, uid: int)
    ensures Rewritten(r, uid).Some? <==> Accepted(r)
  {
    CopyAnyUid(CopyStart, r, uid, 1);
  }

  lemma {:induction false} ItemsAccepted(items: Items)
    ensures AllAccepted(items) <==> SeqAccepted(ItemFiles(items)) && TreeAccepted(ItemDirs(items))
  {
    hide Accepted;
    match items
    case NoMore =>
    case FileItem(r, t) =>
      ItemsAccepted(t);
      assert ItemFiles(items)[0] == r && ItemFiles(items)[1..] == ItemFiles(t);
      if SeqAccepted(ItemFiles(items)) {
        forall i | 0 <= i < |ItemFiles(t)| ensures Accepted(ItemFiles(t)[i]) {
          assert ItemFiles(t)[i] == ItemFiles(items)[i + 1];
        }
      }
    case DirItem(_, _, c, t) =>
      ItemsAccepted(c);
      ItemsAccepted(t);
  }

  lemma {:induction false} FilesAccepted(s: Store, fs: seq<nat>)
    ensures SeqAccepted(FilesAt(s, fs)) <==> forall i :: i in fs ==> Accepted(FileAt(s, i))
  {
    hide Accepted, FileAt;
    if fs != [] {
      FilesAccepted(s, fs[1..]);
      var all, rest := FilesAt(s, fs), FilesAt(s, fs[1..]);
      assert all[0] == FileAt(s, fs[0]) && all[1..] == rest;
      assert SeqAccepted(all) <==> Accepted(all[0]) && SeqAccepted(rest) by {
        if SeqAccepted(all) { assert forall i :: 0 <= i < |rest| ==> rest[i] == all[i + 1]; }
      }
      assert forall i :: i in fs <==> i == fs[0] || i in fs[1..];
    }
  }

  lemma {:induction false} LayoutAccepted(s: Store, f: Forest)
    ensures TreeAccepted(Value(s, f)) <==> forall i :: i in FileCells(f) ==> Accepted(FileAt(s, i))
  {
    hide Accepted, FileAt;
    match f
    case Nil =>
    case Node(_, _, fs, k, t) =>
      FilesAccepted(s, fs);
      LayoutAccepted(s, k);
      LayoutAccepted(s, t);
      assert forall i :: i in fs <==> i in Elements(fs);
  }

  /** A source can be appended exactly when the rewriter accepts all of its input's records. */
  lemma SourceAccepted(src: Source, items: Items, sfs: seq<nat>, sf: Forest, uid: int)
    requires SourceOf(src, items, sfs, sf)
    ensures Rewritable(src.store, uid) <==> AllAccepted(items)
  {
    hide Accepted, FileAt, Rewritten, Cells, Records, FileCells, DirSeg, Separated;
    var s := src.store;
    ItemsAccepted(items);
    FilesAccepted(s, sfs);
    LayoutAccepted(s, sf);
    assert forall i :: i in sfs <==> i in Elements(sfs);
    forall i: nat | i < |s.fileIndex| ensures Rewritten(FileAt(s, i), uid + i).Some? <==> Accepted(FileAt(s, i)) {
      AcceptedAnyUid(FileAt(s, i), uid + i);
    }
    assert forall i: nat :: i in Elements(sfs) + FileCells(sf) <==> i < |s.fileIndex|;
  }

  /** What a parser builds from nothing is a well-formed source. */
  lemma BuiltSource(src: Source, items: Items, fs: seq<nat>, f: Forest)
    requires Built(Store([], [], [], []), src.store, fs, f)
    requires ChainOfFiles(src.store, src.files, fs) && ChainOfDirs(src.store, src.dirs, f)
    requires FilesAt(src.store, fs) == ItemFiles(items) && Value(src.store, f) == ItemDirs(items)
    ensures SourceOf(src, items, fs, f)
  {
  }

  // ----- facts the driver passes between its steps

  lemma SourceChecked(src: Source, items: Items, sfs: seq<nat>, sf: Forest)
    requires SourceOf(src, items, sfs, sf)
    ensures Checked(src.store) && src.files.first >= -1 && src.files.last >= -1
    ensures src.dirs.first >= -1 && src.dirs.last >= -1
  {
    WellFormedChecked(src, sfs, sf);
  }

  lemma RootEnds(s: Store, s1: Store, files: IndexChain, dirs: IndexChain, fs: seq<nat>, f: Forest, inputs: seq<Items>,
                 uid: int)
    requires MergeState(s, files, dirs, fs, f, inputs, uid) && Grown(s, s1)
    ensures files.last < |s1.fileIndex| && dirs.last < |s1.dirIndex| && Packed(s)
  {
    hide Packed;
    ChainEnds(s, files, fs, dirs, f);
  }

  lemma RootChains(s: Store, files: IndexChain, dirs: IndexChain, fs: seq<nat>, f: Forest, inputs: seq<Items>, uid: int)
    requires MergeState(s, files, dirs, fs, f, inputs, uid)
    ensures ChainOfFiles(s, files, fs) && ChainOfDirs(s, dirs, f) && Separated(f) && FilesPresent(s, f)
    ensures |s.dirRecords| > 0
  {
  }

  lemma NormalizedTotals(s: Store, s1: Store, f: Forest, g: Forest, first: int, uid: int, uid': int)
    requires Normalized(s, s1, f, g, first, uid, uid')
    ensures TotalsTrue(s1, g) && |s1.dirRecords| == |s.dirRecords|
  {
  }
}
