/** Facts about the pieces of in-place work the merge does on chains: joining two chains,
    absorbing a duplicate directory into the first of its name, replacing a directory's
    subdirectories. */
module ChainSurgery {
  import opened Common
  import opened IndexStore
  import D = DirectoryTree

  // ----- what a change of links cannot affect

  lemma {:induction false} TouchesFiles(s: Store, s': Store, fs: seq<nat>, cells: set<nat>, records: set<nat>,
                                        files: set<nat>)
    requires Touches(s, s', cells, records, files)
    ensures FilesAt(s', fs) == FilesAt(s, fs)
    decreases |fs|
  {
    if fs != [] {
      TouchesFiles(s, s', fs[1..], cells, records, files);
      var i := fs[0];
      if i < |s.fileIndex| {
        assert s'.fileIndex[i].(next := 0) == s.fileIndex[i].(next := 0);
        assert s'.fileIndex[i].(next := 0).offset == s.fileIndex[i].offset;
        assert s'.fileIndex[i].(next := 0).length == s.fileIndex[i].length;
      }
    }
  }

  lemma {:induction false} TouchesValue(s: Store, s': Store, f: Forest, cells: set<nat>, records: set<nat>,
                                        files: set<nat>)
    requires Touches(s, s', cells, records, files)
    ensures Value(s', f) == Value(s, f)
    decreases f
  {
    match f
    case Nil =>
    case Node(_, r, fs, k, t) =>
      TouchesFiles(s, s', fs, cells, records, files);
      TouchesValue(s, s', k, cells, records, files);
      TouchesValue(s, s', t, cells, records, files);
  }

  lemma TouchesPresent(s: Store, s': Store, present: set<nat>, cells: set<nat>, records: set<nat>, files: set<nat>)
    requires Touches(s, s', cells, records, files) && FilesIn(s, present)
    ensures FilesIn(s', present)
  {
    forall i | i in present ensures i < |s'.fileIndex| && InRecords(s', s'.fileIndex[i]) {
      assert s'.fileIndex[i].(next := 0) == s.fileIndex[i].(next := 0);
      assert s'.fileIndex[i].(next := 0).offset == s.fileIndex[i].offset;
      assert s'.fileIndex[i].(next := 0).length == s.fileIndex[i].length;
    }
  }

  // ----- joining two chains

  /** `target` followed by `source`: new links and the joined chain. */
  function JoinFiles(index: seq<FileCell>, target: IndexChain, source: IndexChain): (seq<FileCell>, IndexChain) {
    if source.count == 0 then (index, target)
    else if 0 <= target.last < |index| then
      (index[target.last := index[target.last].(next := source.first)],
       IndexChain(target.first, source.last, target.count + source.count))
    else (index, IndexChain(source.first, source.last, target.count + source.count))
  }

  function JoinDirs(index: seq<DirCell>, target: IndexChain, source: IndexChain): (seq<DirCell>, IndexChain) {
    if source.count == 0 then (index, target)
    else if 0 <= target.last < |index| then
      (index[target.last := index[target.last].(next := source.first)],
       IndexChain(target.first, source.last, target.count + source.count))
    else (index, IndexChain(source.first, source.last, target.count + source.count))
  }

  /** Joined file chains hold the concatenation, provided they share no cell. */
  lemma JoinFilesHolds(s: Store, a: IndexChain, fs: seq<nat>, b: IndexChain, gs: seq<nat>)
    requires ChainOfFiles(s, a, fs) && ChainOfFiles(s, b, gs)
    requires Distinct(fs) && Elements(fs) !! Elements(gs)
    ensures var (index, chain) := JoinFiles(s.fileIndex, a, b);
            var s' := s.(fileIndex := index);
            ChainOfFiles(s', chain, fs + gs) && Touches(s, s', {}, {}, Elements(fs))
  {
    var (index, chain) := JoinFiles(s.fileIndex, a, b);
    FileSegBounds(s.fileIndex, a.first, fs, -1);
    FileSegBounds(s.fileIndex, b.first, gs, -1);
    if gs == [] {
      assert fs + gs == fs;
    } else if fs == [] {
      assert fs + gs == gs;
    } else {
      var last := fs[|fs| - 1];
      assert last in Elements(fs);
      FileSegRedirect(s.fileIndex, a.first, fs, -1, b.first);
      FileSegKept(s.fileIndex, index, b.first, gs, -1, last);
      FileSegJoin(index, a.first, fs, b.first, gs, -1);
      assert (fs + gs)[|fs + gs| - 1] == gs[|gs| - 1];
    }
  }

  lemma {:induction false} FileSegKept(index: seq<FileCell>, index': seq<FileCell>, first: int, gs: seq<nat>, stop: int,
                                       changed: nat)
    requires FileSeg(index, first, gs, stop) && changed !in Elements(gs)
    requires |index'| == |index| && forall i :: 0 <= i < |index| && i != changed ==> index'[i] == index[i]
    ensures FileSeg(index', first, gs, stop)
    decreases |gs|
  {
    if gs != [] {
      assert gs[0] in Elements(gs);
      assert forall x :: x in Elements(gs[1..]) ==> x in Elements(gs);
      FileSegKept(index, index', index[gs[0]].next, gs[1..], stop, changed);
    }
  }

  /** Joined directory chains lay out the concatenation, provided they share nothing. */
  lemma JoinDirsHolds(s: Store, a: IndexChain, f: Forest, b: IndexChain, g: Forest)
    requires ChainOfDirs(s, a, f) && ChainOfDirs(s, b, g)
    requires Separated(f) && Apart(f, g) && FilesPresent(s, f) && FilesPresent(s, g)
    ensures var (index, chain) := JoinDirs(s.dirIndex, a, b);
            var s' := s.(dirIndex := index);
            ChainOfDirs(s', chain, Concat(f, g)) && Touches(s, s', Cells(f), {}, {})
  {
    hide Cells, Records, FileCells, Separated, DirSeg;
    var (index, chain) := JoinDirs(s.dirIndex, a, b);
    var s' := s.(dirIndex := index);
    ConcatShape(f, g);
    EmptyForests(f, g);
    if g.Nil? {
      ConcatNil(f);
    } else if f.Node? {
      LastIn(f);
      DirSegRedirect(s, f, a.first, -1, b.first);
      assert s' == Relink(s, Last(f), b.first);
      assert Touches(s, s', Cells(f), {}, {});
      TouchesAgree(s, s', g, Cells(f), {}, {});
      hide Touches;
      FrameDirs(s, s', g, b.first, -1);
      DirSegJoin(s', a.first, f, b.first, g, -1);
    }
  }

  lemma EmptyForests(f: Forest, g: Forest)
    ensures f.Nil? ==> Concat(f, g) == g && Last(f) == -1
    ensures f.Node? ==> Length(f) > 0
    ensures g.Nil? <==> Length(g) == 0
  {
  }

  lemma {:induction false} ConcatNil(f: Forest)
    ensures Concat(f, Nil) == f
  {
    match f case Nil => case Node(_, _, _, _, t) => ConcatNil(t);
  }

  lemma LengthPositive(f: Forest)
    requires f.Node?
    ensures Length(f) > 0
  {
  }

  // ----- absorbing a duplicate

  /** The layout once the top-level directory with record `p` got more files and subdirectories. */
  function AbsorbForest(f: Forest, p: nat, gs: seq<nat>, j: Forest): Forest {
    match f
    case Nil => Nil
    case Node(c, r, fs, k, t) =>
      if r == p then Node(c, r, fs + gs, Concat(k, j), t) else Node(c, r, fs, k, AbsorbForest(t, p, gs, j))
  }

  /** Record of the first top-level directory with this name. */
  function Lookup(s: Store, f: Forest, name: string): Option<nat> {
    match f
    case Nil => None
    case Node(_, r, _, _, t) => if NameAt(s, r) == name then Some(r) else Lookup(s, t, name)
  }

  function FilesUnder(f: Forest, p: nat): seq<nat> {
    match f
    case Nil => []
    case Node(_, r, fs, _, t) => if r == p then fs else FilesUnder(t, p)
  }

  function KidsUnder(f: Forest, p: nat): Forest {
    match f
    case Nil => Nil
    case Node(_, r, _, k, t) => if r == p then k else KidsUnder(t, p)
  }

  lemma {:induction false} LookupSame(s: Store, s': Store, f: Forest, name: string, cells: set<nat>, records: set<nat>,
                                      files: set<nat>)
    requires Touches(s, s', cells, records, files)
    ensures Lookup(s', f, name) == Lookup(s, f, name)
    decreases f
  {
    match f case Nil => case Node(_, _, _, _, t) => LookupSame(s, s', t, name, cells, records, files);
  }

  lemma {:induction false} LookupAbsorb(s: Store, f: Forest, name: string, p: nat, gs: seq<nat>, j: Forest)
    ensures Lookup(s, AbsorbForest(f, p, gs, j), name) == Lookup(s, f, name)
  {
    match f case Nil => case Node(_, _, _, _, t) => LookupAbsorb(s, t, name, p, gs, j);
  }

  lemma {:induction false} LookupConcat(s: Store, a: Forest, b: Forest, name: string)
    ensures Lookup(s, Concat(a, b), name) ==
            if Lookup(s, a, name).Some? then Lookup(s, a, name) else Lookup(s, b, name)
  {
    match a case Nil => case Node(_, _, _, _, t) => LookupConcat(s, t, b, name);
  }

  /** The primary's own header and chains, found inside the survivors' layout. */
  lemma {:induction false} PrimaryFacts(s: Store, f: Forest, first: int, stop: int, name: string)
    requires DirSeg(s, f, first, stop) && Separated(f) && Lookup(s, f, name).Some?
    ensures var p := Lookup(s, f, name).value;
            var fs, k := FilesUnder(f, p), KidsUnder(f, p);
            p < |s.dirRecords| && NameAt(s, p) == name && Holds(s, s.dirRecords[p], fs, k)
            && p in Records(f) && p !in Records(k) && Distinct(fs) && Separated(k)
            && Elements(fs) <= FileCells(f) && Cells(k) <= Cells(f) && Records(k) <= Records(f)
            && FileCells(k) <= FileCells(f) && Elements(fs) !! FileCells(k)
    decreases f
  {
    match f
    case Node(c, r, fs, k, t) =>
      if NameAt(s, r) != name {
        PrimaryFacts(s, t, s.dirIndex[c].next, stop, name);
      }
  }

  lemma {:induction false} AbsorbShape(f: Forest, p: nat, gs: seq<nat>, j: Forest)
    requires p in TopRecords(f)
    ensures var g := AbsorbForest(f, p, gs, j);
            && Last(g) == Last(f) && Length(g) == Length(f) && TopRecords(g) == TopRecords(f)
            && Size(g) == Size(f) + Size(j) && FileTotal(g) == FileTotal(f) + |gs| + FileTotal(j)
    decreases f
  {
    match f
    case Node(c, r, fs, k, t) =>
      if r == p {
        ConcatShape(k, j);
      } else {
        assert p in TopRecords(t);
        AbsorbShape(t, p, gs, j);
      }
  }

  lemma {:induction false} AbsorbFootprint(f: Forest, p: nat, gs: seq<nat>, j: Forest)
    requires p in TopRecords(f)
    ensures var g := AbsorbForest(f, p, gs, j);
            Cells(g) == Cells(f) + Cells(j) && Records(g) == Records(f) + Records(j)
            && FileCells(g) == FileCells(f) + Elements(gs) + FileCells(j)
    decreases f
  {
    match f
    case Node(c, r, fs, k, t) =>
      if r == p {
        ConcatFootprint(k, j);
        assert Elements(fs + gs) == Elements(fs) + Elements(gs);
      } else {
        assert p in TopRecords(t);
        AbsorbFootprint(t, p, gs, j);
      }
  }

  lemma {:induction false} AbsorbSeparated(f: Forest, p: nat, gs: seq<nat>, j: Forest)
    requires p in TopRecords(f) && Separated(f) && Separated(j) && Apart(f, j) && Distinct(gs)
    requires Elements(gs) !! FileCells(f) && Elements(gs) !! FileCells(j)
    ensures Separated(AbsorbForest(f, p, gs, j))
    decreases f
  {
    match f
    case Node(c, r, fs, k, t) =>
      if r == p {
        ConcatFootprint(k, j);
        ConcatSeparated(k, j);
        assert Elements(fs + gs) == Elements(fs) + Elements(gs);
        assert Elements(fs) !! Elements(gs) && Apart(k, j) && Apart(t, j);
        DistinctAppend(fs, gs);
      } else {
        assert p in TopRecords(t);
        assert Apart(t, j) && Apart(k, j) && Elements(gs) !! FileCells(t) && Elements(gs) !! FileCells(k);
        AbsorbSeparated(t, p, gs, j);
        AbsorbFootprint(t, p, gs, j);
      }
  }

  lemma DistinctAppend(a: seq<nat>, b: seq<nat>)
    requires Distinct(a) && Distinct(b) && Elements(a) !! Elements(b)
    ensures Distinct(a + b)
  {
    var c := a + b;
    forall i, j | 0 <= i < j < |c| ensures c[i] != c[j] {
      if i < |a| <= j {
        assert a[i] in Elements(a) && b[j - |a|] in Elements(b);
      }
    }
  }

  lemma {:induction false} LookupTop(s: Store, f: Forest, name: string)
    ensures Lookup(s, f, name).Some? ==> Lookup(s, f, name).value in TopRecords(f)
    ensures Lookup(s, f, name).Some? <==> name in D.Names(Value(s, f))
  {
    match f
    case Nil =>
    case Node(_, r, _, _, t) =>
      LookupTop(s, t, name);
      assert D.Names(Value(s, f)) == [NameAt(s, r)] + D.Names(Value(s, t));
  }

  lemma TouchesAgree(s: Store, s': Store, f: Forest, cells: set<nat>, records: set<nat>, files: set<nat>)
    requires Touches(s, s', cells, records, files)
    requires Cells(f) !! cells && Records(f) !! records && FileCells(f) !! files
    ensures Agree(s, s', f)
  {
  }

  /** Once the primary's header holds the joined chains, the survivors' chain lays out the
      absorbed forest. */
  lemma {:induction false} AbsorbSeg(s: Store, s': Store, f: Forest, first: int, stop: int, name: string, gs: seq<nat>,
                                     j: Forest)
    requires DirSeg(s, f, first, stop) && Separated(f) && FilesPresent(s, f)
    requires Lookup(s, f, name).Some?
    requires var p := Lookup(s, f, name).value;
             var fs, k := FilesUnder(f, p), KidsUnder(f, p);
             && Touches(s, s', Cells(k), {p}, Elements(fs))
             && p < |s'.dirRecords| && Holds(s', s'.dirRecords[p], fs + gs, Concat(k, j))
    ensures DirSeg(s', AbsorbForest(f, Lookup(s, f, name).value, gs, j), first, stop)
    decreases f
  {
    var p := Lookup(s, f, name).value;
    var tc, tf := Cells(KidsUnder(f, p)), Elements(FilesUnder(f, p));
    match f
    case Node(c, r, fs, k, t) =>
      if NameAt(s, r) == name {
        TouchesAgree(s, s', t, tc, {p}, tf);
        FrameDirs(s, s', t, s.dirIndex[c].next, stop);
      } else {
        assert r != p by { PrimaryFacts(s, t, s.dirIndex[c].next, stop, name); }
        PrimaryFacts(s, t, s.dirIndex[c].next, stop, name);
        TouchesAgree(s, s', k, tc, {p}, tf);
        FrameHolds(s, s', s.dirRecords[r], fs, k);
        AbsorbSeg(s, s', t, s.dirIndex[c].next, stop, name, gs, j);
      }
  }

  /** The absorbed forest means the scan step on the survivors' meaning. */
  lemma {:induction false} AbsorbValue(s: Store, f: Forest, name: string, gs: seq<nat>, j: Forest)
    requires Lookup(s, f, name).Some?
    ensures Value(s, AbsorbForest(f, Lookup(s, f, name).value, gs, j)) ==
            D.Absorb(Value(s, f), name, FilesAt(s, gs), Value(s, j))
    decreases f
  {
    var p := Lookup(s, f, name).value;
    match f
    case Node(c, r, fs, k, t) =>
      if NameAt(s, r) == name {
        FilesAtAppend(s, fs, gs);
        ConcatValue(s, k, j);
        ConcatTotals(s, k, j);
      } else {
        LookupName(s, t, name);
        AbsorbValue(s, t, name, gs, j);
      }
  }

  lemma {:induction false} LookupName(s: Store, f: Forest, name: string)
    ensures Lookup(s, f, name).Some? ==> NameAt(s, Lookup(s, f, name).value) == name
  {
    match f case Nil => case Node(_, _, _, _, t) => LookupName(s, t, name);
  }

  /** Absorbing a name not seen before appends it. */
  lemma {:induction false} AbsorbNew(s: Store, f: Forest, name: string, gs: seq<nat>, j: Forest, c: nat, r: nat)
    requires Lookup(s, f, name).None? && NameAt(s, r) == name
    ensures Value(s, Concat(f, Node(c, r, gs, j, Nil))) == D.Absorb(Value(s, f), name, FilesAt(s, gs), Value(s, j))
  {
    match f case Nil => case Node(_, _, _, _, t) => AbsorbNew(s, t, name, gs, j, c, r);
  }

  // ----- walking a chain of known length

  /** The `n` cells from `first` on and the link out of the last one; `None` when a link leaves the index. */
  function FileWalk(index: seq<FileCell>, first: int, n: nat): Option<(seq<nat>, int)>
    decreases n
  {
    if n == 0 then Some(([], first))
    else if first < 0 || first >= |index| then None
    else match FileWalk(index, index[first].next, n - 1)
      case None => None
      case Some((cells, end)) => Some(([first] + cells, end))
  }

  function DirWalk(index: seq<DirCell>, first: int, n: nat): Option<(seq<nat>, int)>
    decreases n
  {
    if n == 0 then Some(([], first))
    else if first < 0 || first >= |index| then None
    else match DirWalk(index, index[first].next, n - 1)
      case None => None
      case Some((cells, end)) => Some(([first] + cells, end))
  }

  /** A chain as the merge re-reads it from a header's first offset and count. */
  function ReadFiles(index: seq<FileCell>, first: int, count: int): Option<IndexChain> {
    if count < 0 then None
    else match FileWalk(index, first, count)
      case None => None
      case Some((cells, end)) =>
        if end != -1 then None
        else Some(IndexChain(first, if count == 0 then -1 else cells[|cells| - 1], count))
  }

  function ReadDirs(index: seq<DirCell>, first: int, count: int): Option<IndexChain> {
    if count < 0 then None
    else match DirWalk(index, first, count)
      case None => None
      case Some((cells, end)) =>
        if end != -1 then None
        else Some(IndexChain(first, if count == 0 then -1 else cells[|cells| - 1], count))
  }

  lemma {:induction false} FileWalkIff(index: seq<FileCell>, first: int, fs: seq<nat>, stop: int)
    ensures FileSeg(index, first, fs, stop) <==> FileWalk(index, first, |fs|) == Some((fs, stop))
    decreases |fs|
  {
    if fs != [] && 0 <= first < |index| {
      FileWalkIff(index, index[first].next, fs[1..], stop);
      assert fs == [fs[0]] + fs[1..];
    }
  }

  /** The reader accepts a first offset and a count exactly when a chain of that many cells
      starts there and ends properly, and then it returns that chain. */
  lemma ReadFilesIff(s: Store, first: int, count: int, fs: seq<nat>)
    ensures |fs| == count && FileSeg(s.fileIndex, first, fs, -1) ==>
            exists chain :: ReadFiles(s.fileIndex, first, count) == Some(chain) && ChainOfFiles(s, chain, fs)
    ensures ReadFiles(s.fileIndex, first, count).Some? ==>
            exists gs :: |gs| == count && FileSeg(s.fileIndex, first, gs, -1)
  {
    FileWalkIff(s.fileIndex, first, fs, -1);
    if ReadFiles(s.fileIndex, first, count).Some? {
      var (gs, end) := FileWalk(s.fileIndex, first, count).value;
      FileWalkLength(s.fileIndex, first, count);
      FileWalkIff(s.fileIndex, first, gs, -1);
    }
  }

  lemma {:induction false} FileWalkLength(index: seq<FileCell>, first: int, n: nat)
    ensures FileWalk(index, first, n).Some? ==> |FileWalk(index, first, n).value.0| == n
    decreases n
  {
    if n > 0 && 0 <= first < |index| {
      FileWalkLength(index, index[first].next, n - 1);
    }
  }

  lemma {:induction false} DirWalkLength(index: seq<DirCell>, first: int, n: nat)
    ensures DirWalk(index, first, n).Some? ==> |DirWalk(index, first, n).value.0| == n
    decreases n
  {
    if n > 0 && 0 <= first < |index| {
      DirWalkLength(index, index[first].next, n - 1);
    }
  }

  lemma {:induction false} DirWalkFollows(s: Store, f: Forest, first: int, stop: int)
    requires DirSeg(s, f, first, stop)
    ensures DirWalk(s.dirIndex, first, Length(f)).Some?
    ensures var (cells, end) := DirWalk(s.dirIndex, first, Length(f)).value;
            end == stop && |cells| == Length(f) && (f.Node? ==> cells[|cells| - 1] == Last(f))
    decreases f
  {
    match f
    case Nil =>
    case Node(c, _, _, _, t) => DirWalkFollows(s, t, s.dirIndex[c].next, stop);
  }

  /** Reading the chain of a laid-out forest succeeds and returns that chain. */
  lemma ReadDirsFollows(s: Store, f: Forest, first: int)
    requires DirSeg(s, f, first, -1)
    ensures exists chain :: ReadDirs(s.dirIndex, first, Length(f)) == Some(chain) && ChainOfDirs(s, chain, f)
  {
    DirWalkFollows(s, f, first, -1);
    var chain := IndexChain(first, Last(f), Length(f));
    assert ReadDirs(s.dirIndex, first, Length(f)) == Some(chain) by {
      if f.Node? { LengthPositive(f); }
    }
    assert ChainOfDirs(s, chain, f);
  }

  /** A chain that was read back lies inside the index. */
  lemma ReadBounds(s: Store, h: DirRecord)
    ensures ReadFiles(s.fileIndex, h.fileFirst, h.fileCount).Some? ==>
            ReadFiles(s.fileIndex, h.fileFirst, h.fileCount).value.last < |s.fileIndex|
    ensures ReadDirs(s.dirIndex, h.dirFirst, h.dirCount).Some? ==>
            ReadDirs(s.dirIndex, h.dirFirst, h.dirCount).value.last < |s.dirIndex|
  {
    if h.fileCount >= 0 {
      FileWalkLength(s.fileIndex, h.fileFirst, h.fileCount);
      FileWalkInside(s.fileIndex, h.fileFirst, h.fileCount);
      if h.fileCount > 0 && ReadFiles(s.fileIndex, h.fileFirst, h.fileCount).Some? {
        var cells := FileWalk(s.fileIndex, h.fileFirst, h.fileCount).value.0;
        assert cells[|cells| - 1] in cells;
      }
    }
    if h.dirCount >= 0 {
      DirWalkLength(s.dirIndex, h.dirFirst, h.dirCount);
      DirWalkInside(s.dirIndex, h.dirFirst, h.dirCount);
      if h.dirCount > 0 && ReadDirs(s.dirIndex, h.dirFirst, h.dirCount).Some? {
        var cells := DirWalk(s.dirIndex, h.dirFirst, h.dirCount).value.0;
        assert cells[|cells| - 1] in cells;
      }
    }
  }

  lemma {:induction false} FileWalkInside(index: seq<FileCell>, first: int, n: nat)
    ensures FileWalk(index, first, n).Some? ==> forall c :: c in FileWalk(index, first, n).value.0 ==> c < |index|
    decreases n
  {
    if n > 0 && 0 <= first < |index| {
      FileWalkInside(index, index[first].next, n - 1);
    }
  }

  lemma {:induction false} DirWalkInside(index: seq<DirCell>, first: int, n: nat)
    ensures DirWalk(index, first, n).Some? ==> forall c :: c in DirWalk(index, first, n).value.0 ==> c < |index|
    decreases n
  {
    if n > 0 && 0 <= first < |index| {
      DirWalkInside(index, index[first].next, n - 1);
    }
  }

  // ----- moving a duplicate's contents into the primary

  /** The store after the duplicate's chains were appended to the primary's; `None` when one of
      the four chains does not have the length its header claims. */
  function MergeRecords(s: Store, primary: nat, duplicate: nat): Option<Store>
    requires primary < |s.dirRecords| && duplicate < |s.dirRecords|
  {
    if primary == duplicate then Some(s)
    else
      var p, d := s.dirRecords[primary], s.dirRecords[duplicate];
      match (ReadFiles(s.fileIndex, p.fileFirst, p.fileCount), ReadFiles(s.fileIndex, d.fileFirst, d.fileCount),
             ReadDirs(s.dirIndex, p.dirFirst, p.dirCount), ReadDirs(s.dirIndex, d.dirFirst, d.dirCount))
      case (Some(pf), Some(df), Some(pd), Some(dd)) =>
        var (fileIndex, files) := JoinFiles(s.fileIndex, pf, df);
        var (dirIndex, dirs) := JoinDirs(s.dirIndex, pd, dd);
        Some(s.(fileIndex := fileIndex, dirIndex := dirIndex, dirRecords := s.dirRecords[primary := p.(
          fileFirst := files.first, fileCount := files.count, dirFirst := dirs.first, dirCount := dirs.count,
          totalFiles := p.totalFiles + d.totalFiles, totalDirs := p.totalDirs + d.totalDirs)]))
      case _ => None
  }

  /** What may be moved: two laid-out directories that share nothing. */
  ghost predicate Mergeable(s: Store, p: nat, d: nat, fs: seq<nat>, k: Forest, gs: seq<nat>, j: Forest) {
    && p < |s.dirRecords| && d < |s.dirRecords| && p != d
    && Holds(s, s.dirRecords[p], fs, k) && Holds(s, s.dirRecords[d], gs, j)
    && Distinct(fs) && Elements(fs) !! Elements(gs)
    && Elements(fs) !! FileCells(k) && Elements(fs) !! FileCells(j)
    && Separated(k) && Apart(k, j) && p !in Records(k) && p !in Records(j)
    && FilesPresent(s, k) && FilesPresent(s, j)
  }

  lemma JoinedHeader(s: Store, files: IndexChain, fs: seq<nat>, dirs: IndexChain, k: Forest, h: DirRecord)
    requires ChainOfFiles(s, files, fs) && ChainOfDirs(s, dirs, k)
    requires h.fileFirst == files.first && h.fileCount == files.count
    requires h.dirFirst == dirs.first && h.dirCount == dirs.count
    ensures Holds(s, h, fs, k)
  {
  }

  /** Moving succeeds, and the primary then holds everything, in order. */
  lemma MergeRecordsHolds(s: Store, p: nat, d: nat, fs: seq<nat>, k: Forest, gs: seq<nat>, j: Forest)
    requires Mergeable(s, p, d, fs, k, gs, j)
    ensures MergeRecords(s, p, d).Some?
    ensures var s' := MergeRecords(s, p, d).value;
            Touches(s, s', Cells(k), {p}, Elements(fs)) && Holds(s', s'.dirRecords[p], fs + gs, Concat(k, j))
            && s'.dirRecords[p].uid == s.dirRecords[p].uid
  {
    hide Cells, Records, FileCells, Separated, DirSeg, FileSeg, ReadFiles, ReadDirs, Touches;
    var ph, dh := s.dirRecords[p], s.dirRecords[d];
    ReadFilesIff(s, ph.fileFirst, ph.fileCount, fs);
    ReadFilesIff(s, dh.fileFirst, dh.fileCount, gs);
    ReadDirsFollows(s, k, ph.dirFirst);
    ReadDirsFollows(s, j, dh.dirFirst);
    var pf, df := ReadFiles(s.fileIndex, ph.fileFirst, ph.fileCount).value,
      ReadFiles(s.fileIndex, dh.fileFirst, dh.fileCount).value;
    var pd, dd := ReadDirs(s.dirIndex, ph.dirFirst, ph.dirCount).value,
      ReadDirs(s.dirIndex, dh.dirFirst, dh.dirCount).value;
    var (fileIndex, files) := JoinFiles(s.fileIndex, pf, df);
    var (dirIndex, dirs) := JoinDirs(s.dirIndex, pd, dd);
    JoinFilesHolds(s, pf, fs, df, gs);
    JoinDirsHolds(s, pd, k, dd, j);
    MovedChains(s, fileIndex, files, fs, gs, dirIndex, dirs, k, j, p, MergeRecords(s, p, d).value.dirRecords[p]);
  }

  /** Joining files first does not disturb the directory chains, nor does rewriting the header. */
  lemma MovedChains(
    s: Store, fileIndex: seq<FileCell>, files: IndexChain, fs: seq<nat>, gs: seq<nat>,
    dirIndex: seq<DirCell>, dirs: IndexChain, k: Forest, j: Forest, p: nat, h: DirRecord)
    requires p < |s.dirRecords| && p !in Records(k) && p !in Records(j)
    requires Elements(fs) !! FileCells(k) && Elements(fs) !! FileCells(j)
    requires FilesPresent(s, k) && FilesPresent(s, j)
    requires var s1 := s.(fileIndex := fileIndex);
             ChainOfFiles(s1, files, fs + gs) && Touches(s, s1, {}, {}, Elements(fs))
    requires var s2 := s.(dirIndex := dirIndex);
             ChainOfDirs(s2, dirs, Concat(k, j)) && Touches(s, s2, Cells(k), {}, {})
    requires h.name == s.dirRecords[p].name && h.fileFirst == files.first && h.fileCount == files.count
    requires h.dirFirst == dirs.first && h.dirCount == dirs.count
    ensures var s' := Store(s.fileRecords, fileIndex, dirIndex, s.dirRecords[p := h]);
            Holds(s', h, fs + gs, Concat(k, j)) && Touches(s, s', Cells(k), {p}, Elements(fs))
  {
    MovedDirs(s, fileIndex, Elements(fs), dirIndex, dirs, k, j, p, h);
    MovedTouches(s, fileIndex, Elements(fs), dirIndex, Cells(k), p, h);
    var s' := Store(s.fileRecords, fileIndex, dirIndex, s.dirRecords[p := h]);
    JoinedHeader(s', files, fs + gs, dirs, Concat(k, j), h);
  }

  lemma MovedTouches(
    s: Store, fileIndex: seq<FileCell>, files: set<nat>, dirIndex: seq<DirCell>, cells: set<nat>, p: nat, h: DirRecord)
    requires p < |s.dirRecords| && h.name == s.dirRecords[p].name
    requires Touches(s, s.(fileIndex := fileIndex), {}, {}, files)
    requires Touches(s, s.(dirIndex := dirIndex), cells, {}, {})
    ensures Touches(s, Store(s.fileRecords, fileIndex, dirIndex, s.dirRecords[p := h]), cells, {p}, files)
  {
  }

  lemma MovedDirs(
    s: Store, fileIndex: seq<FileCell>, files: set<nat>, dirIndex: seq<DirCell>, dirs: IndexChain,
    k: Forest, j: Forest, p: nat, h: DirRecord)
    requires p < |s.dirRecords| && p !in Records(k) && p !in Records(j) && h.name == s.dirRecords[p].name
    requires files !! FileCells(k) && files !! FileCells(j)
    requires FilesPresent(s, k) && FilesPresent(s, j)
    requires Touches(s, s.(fileIndex := fileIndex), {}, {}, files)
    requires Touches(s, s.(dirIndex := dirIndex), Cells(k), {}, {})
    requires ChainOfDirs(s.(dirIndex := dirIndex), dirs, Concat(k, j))
    ensures ChainOfDirs(Store(s.fileRecords, fileIndex, dirIndex, s.dirRecords[p := h]), dirs, Concat(k, j))
  {
    var s2 := s.(dirIndex := dirIndex);
    var s' := Store(s.fileRecords, fileIndex, dirIndex, s.dirRecords[p := h]);
    var both := Concat(k, j);
    ConcatFootprint(k, j);
    assert FilesPresent(s2, both);
    assert Agree(s2, s', both);
    FrameDirs(s2, s', both, dirs.first, -1);
  }
}
