/** The schema store being written: chain building, relocation of whole merge sources, and
    the in-place merge of duplicate directories. */
module SchemaStore {
  import opened Common
  import opened XmlEvents
  import opened IndexStore
  import opened ChainSurgery
  import opened MergeProof
  import opened RecordUid
  import opened Relocation
  import opened Building
  import opened Merging
  import opened Selections
  import D = DirectoryTree

  class StoreOutput {
    var fileRecords: seq<Event>
    var fileIndex: seq<FileCell>
    var dirIndex: seq<DirCell>
    var dirRecords: seq<DirRecord>
    var selectionCount: nat
    var nextFileUid: int

    constructor ()
      ensures Snap() == Store([], [], [], []) && selectionCount == 0 && nextFileUid == 1
    {
      fileRecords, fileIndex, dirIndex, dirRecords := [], [], [], [];
      selectionCount, nextFileUid := 0, 1;
    }

    function Snap(): Store
      reads this
    {
      Store(fileRecords, fileIndex, dirIndex, dirRecords)
    }

    // ----- reading and joining chains

    method ReadFileChain(first: int, count: int) returns (r: Option<IndexChain>)
      ensures r == ReadFiles(fileIndex, first, count)
    {
      if count < 0 { return None; }
      var current, last := first, -1;
      ghost var seen: seq<nat> := [];
      ghost var whole := FileWalk(fileIndex, first, count);
      if whole.Some? {
        assert [] + whole.value.0 == whole.value.0;
      }
      for i := 0 to count
        invariant |seen| == i && last == (if i == 0 then -1 else seen[i - 1])
        invariant whole == match FileWalk(fileIndex, current, count - i)
                           case None => None
                           case Some((cells, end)) => Some((seen + cells, end))
      {
        if current < 0 || current >= |fileIndex| {
          return None;
        }
        ghost var tail := FileWalk(fileIndex, fileIndex[current].next, count - i - 1);
        if tail.Some? {
          assert seen + ([current] + tail.value.0) == (seen + [current]) + tail.value.0;
        }
        seen := seen + [current];
        last, current := current, fileIndex[current].next;
      }
      return if current == -1 then Some(IndexChain(first, last, count)) else None;
    }

    method ReadDirectoryChain(first: int, count: int) returns (r: Option<IndexChain>)
      ensures r == ReadDirs(dirIndex, first, count)
    {
      if count < 0 { return None; }
      var current, last := first, -1;
      ghost var seen: seq<nat> := [];
      ghost var whole := DirWalk(dirIndex, first, count);
      if whole.Some? {
        assert [] + whole.value.0 == whole.value.0;
      }
      for i := 0 to count
        invariant |seen| == i && last == (if i == 0 then -1 else seen[i - 1])
        invariant whole == match DirWalk(dirIndex, current, count - i)
                           case None => None
                           case Some((cells, end)) => Some((seen + cells, end))
      {
        if current < 0 || current >= |dirIndex| {
          return None;
        }
        ghost var tail := DirWalk(dirIndex, dirIndex[current].next, count - i - 1);
        if tail.Some? {
          assert seen + ([current] + tail.value.0) == (seen + [current]) + tail.value.0;
        }
        seen := seen + [current];
        last, current := current, dirIndex[current].next;
      }
      return if current == -1 then Some(IndexChain(first, last, count)) else None;
    }

    /** `None` when the target's last cell lies outside the index. */
    method JoinFileChains(target: IndexChain, source: IndexChain) returns (r: Option<IndexChain>)
      modifies this`fileIndex
      ensures source.count == 0 || target.last < |old(fileIndex)| ==>
        r == Some(JoinFiles(old(fileIndex), target, source).1)
        && fileIndex == JoinFiles(old(fileIndex), target, source).0
      ensures !(source.count == 0 || target.last < |old(fileIndex)|) ==> r == None && fileIndex == old(fileIndex)
    {
      if source.count == 0 { return Some(target); }
      var first := target.first;
      if target.last >= 0 {
        if target.last >= |fileIndex| { return None; }
        fileIndex := fileIndex[target.last := fileIndex[target.last].(next := source.first)];
      } else {
        first := source.first;
      }
      return Some(IndexChain(first, source.last, target.count + source.count));
    }

    method JoinDirectoryChains(target: IndexChain, source: IndexChain) returns (r: Option<IndexChain>)
      modifies this`dirIndex
      ensures source.count == 0 || target.last < |old(dirIndex)| ==>
        r == Some(JoinDirs(old(dirIndex), target, source).1)
        && dirIndex == JoinDirs(old(dirIndex), target, source).0
      ensures !(source.count == 0 || target.last < |old(dirIndex)|) ==> r == None && dirIndex == old(dirIndex)
    {
      if source.count == 0 { return Some(target); }
      var first := target.first;
      if target.last >= 0 {
        if target.last >= |dirIndex| { return None; }
        dirIndex := dirIndex[target.last := dirIndex[target.last].(next := source.first)];
      } else {
        first := source.first;
      }
      return Some(IndexChain(first, source.last, target.count + source.count));
    }

    // ----- merging duplicate directories in place

    /** Move the duplicate's files and subdirectories to the end of the primary's. */
    method MergeDirectoryRecords(primary: nat, duplicate: nat) returns (ok: bool)
      requires primary < |dirRecords| && duplicate < |dirRecords|
      modifies this`fileIndex, this`dirIndex, this`dirRecords
      ensures MergeRecords(old(Snap()), primary, duplicate).Some? ==>
        ok && Snap() == MergeRecords(old(Snap()), primary, duplicate).value
      ensures MergeRecords(old(Snap()), primary, duplicate).None? ==> !ok
    {
      if primary == duplicate { return true; }
      ghost var s0 := Snap();
      var p := dirRecords[primary];
      var d := dirRecords[duplicate];

      var pf := ReadFileChain(p.fileFirst, p.fileCount);
      var df := ReadFileChain(d.fileFirst, d.fileCount);
      if pf.None? || df.None? { return false; }
      ReadBounds(s0, p);
      var files := JoinFileChains(pf.value, df.value);

      var pd := ReadDirectoryChain(p.dirFirst, p.dirCount);
      var dd := ReadDirectoryChain(d.dirFirst, d.dirCount);
      if pd.None? || dd.None? { return false; }
      var directories := JoinDirectoryChains(pd.value, dd.value);

      dirRecords := dirRecords[primary := p.(
        fileFirst := files.value.first, fileCount := files.value.count,
        dirFirst := directories.value.first, dirCount := directories.value.count,
        totalFiles := p.totalFiles + d.totalFiles, totalDirs := p.totalDirs + d.totalDirs)];
      return true;
    }

    /** Totals of a directory from its own files and its subdirectories' headers. */
    method CalculateDirectoryTotals(directFileCount: nat, directories: IndexChain, ghost g: Forest)
      returns (files: int, dirs: int)
      requires ChainOfDirs(Snap(), directories, g) && TotalsTrue(Snap(), g)
      ensures files == directFileCount + FileTotal(g) && dirs == Size(g)
    {
      files, dirs := directFileCount, 0;
      var current := directories.first;
      ghost var todo := g;
      for i := 0 to directories.count
        invariant Length(todo) == directories.count - i
        invariant DirSeg(Snap(), todo, current, -1) && TotalsTrue(Snap(), todo)
        invariant files + FileTotal(todo) == directFileCount + FileTotal(g)
        invariant dirs + Size(todo) == Size(g)
      {
        var cell := dirIndex[current];
        var child := dirRecords[cell.record];
        files := files + child.totalFiles;
        dirs := dirs + 1 + child.totalDirs;
        current := cell.next;
        todo := todo.rest;
      }
    }

    /** Fold the chain's duplicates into the first directory of each name, then normalise
        every surviving directory. */
    method NormalizeDirectoryChain(chain: IndexChain, ghost f: Forest) returns (result: IndexChain, ghost g: Forest)
      requires ChainOfDirs(Snap(), chain, f) && Separated(f) && FilesPresent(Snap(), f)
      modifies this`fileIndex, this`dirIndex, this`dirRecords, this`nextFileUid
      ensures Normalized(old(Snap()), Snap(), f, g, result.first, old(nextFileUid), nextFileUid)
      ensures ChainOfDirs(Snap(), result, g)
      decreases Size(f), 0
    {
      hide Scanning, Named, Lookup, MergeRecords, Laid, Normalized, Settled, Settling;
      ghost var s0 := Snap();
      ghost var uid0 := nextFileUid;
      var first, last, count := chain.first, chain.last, chain.count;
      if count == 0 {
        // An empty chain keeps its empty ends.
        first, last := -1, -1;
      }
      var current, previous := first, -1;
      var primaries: seq<nat> := [];
      var primaryByName: map<string, nat> := map[];
      ghost var survivors, todo := Nil, f;
      ScanStateStart(s0, f, chain);
      for i := 0 to chain.count
        invariant Length(todo) == chain.count - i
        invariant ScanState(s0, Snap(), f, survivors, todo,
                            ScanVars(first, last, count, current, previous, primaries, primaryByName))
        invariant nextFileUid == uid0
      {
        ghost var s := Snap();
        ghost var v := ScanVars(first, last, count, current, previous, primaries, primaryByName);
        CurrentCell(s0, s, f, survivors, todo, first, current);
        var next := dirIndex[current].next;
        var child := dirIndex[current].record;
        var childName := NameOf(dirRecords[child]);
        if childName in primaryByName {
          var primary := primaryByName[childName];
          DuplicateReadable(s0, s, f, survivors, todo, v);
          var _ := MergeDirectoryRecords(primary, child);
          ScanStateDuplicate(s0, s, Snap(), f, survivors, todo, v);
          if previous >= 0 {
            dirIndex := dirIndex[previous := dirIndex[previous].(next := next)];
          } else {
            first := next;
          }
          if current == last {
            last := previous;
          }
          count := count - 1;
          survivors := AbsorbForest(survivors, primary, todo.files, todo.kids);
        } else {
          ScanStateNew(s0, s, f, survivors, todo, v);
          primaryByName := primaryByName[childName := child];
          primaries := primaries + [child];
          previous := current;
          survivors := Concat(survivors, Head(todo));
        }
        current := next;
        todo := todo.rest;
      }
      ScanEnd(s0, Snap(), f, survivors, todo, first, current);
      SettlingStart(s0, Snap(), f, survivors, first, uid0);
      ghost var done, rest := Nil, survivors;
      for i := 0 to |primaries|
        invariant Settling(s0, Snap(), f, done, rest, first, uid0, nextFileUid)
        invariant TopRecords(rest) == primaries[i..]
        invariant Length(done) + Length(rest) == count
        invariant last == if rest.Nil? then Last(done) else Last(rest)
      {
        ghost var s, uid := Snap(), nextFileUid;
        SettlingHead(s0, s, f, done, rest, first, uid0, uid);
        SettledShape(done, rest, rest.kids);
        ghost var k := NormalizeDirectory(primaries[i], rest.files, rest.kids);
        SettlingStep(s0, s, Snap(), f, done, rest, first, k, uid0, uid, nextFileUid);
        SettledShape(done, rest, k);
        done := Concat(done, Node(rest.cell, rest.record, rest.files, k, Nil));
        rest := rest.rest;
      }
      g := done;
      result := IndexChain(first, last, count);
      ChainKept(s0, Snap(), f, g, result, uid0, nextFileUid);
    }

    /** Number a directory, normalise its subdirectories, and rewrite its header. */
    method NormalizeDirectory(record: nat, ghost fs: seq<nat>, ghost k: Forest) returns (ghost k': Forest)
      requires Ready(Snap(), record, fs, k)
      modifies this`fileIndex, this`dirIndex, this`dirRecords, this`nextFileUid
      ensures Settled(old(Snap()), Snap(), record, fs, k, k', old(nextFileUid), nextFileUid)
      decreases Size(k), 1
    {
      hide DirSeg, FileSeg, Separated, Cells, Records, FileCells, D.Normalize, Value, Touches;
      ghost var s0 := Snap();
      var header := dirRecords[record];
      var uid := nextFileUid;
      nextFileUid := nextFileUid + 1;
      dirRecords := dirRecords[record := header.(uid := uid)];
      ghost var s1 := Snap();
      UidWritten(s0, s1, record, fs, k, uid);

      var files := ReadFileChain(header.fileFirst, header.fileCount);
      ReadFilesIff(s1, header.fileFirst, header.fileCount, fs);
      var directories := ReadDirectoryChain(header.dirFirst, header.dirCount);
      ReadDirsFollows(s1, k, header.dirFirst);
      var merged: IndexChain;
      merged, k' := NormalizeDirectoryChain(directories.value, k);
      ghost var s2 := Snap();
      FilesSurvive(s1, s2, record, fs, k);
      var totalFiles, totalDirs := CalculateDirectoryTotals(files.value.count, merged, k');
      dirRecords := dirRecords[record := dirRecords[record].(
        fileFirst := files.value.first, fileCount := files.value.count,
        dirFirst := merged.first, dirCount := merged.count,
        totalFiles := totalFiles, totalDirs := totalDirs)];
      HeaderWritten(s0, s1, s2, record, fs, k, k', merged.first, uid, nextFileUid, dirRecords[record]);
    }

    // ----- appending a whole source

    /** Copy the source's file entries, rewriting every record under the next UID. */
    method CopyFileEntries(s: Store, base: nat, selectionBase: nat) returns (r: Option<seq<FileCell>>)
      modifies this`fileRecords, this`nextFileUid
      ensures old(fileRecords) <= fileRecords
      ensures r.Some? ==> |r.value| == |s.fileIndex| && nextFileUid == old(nextFileUid) + |s.fileIndex|
      ensures r.Some? ==> forall i :: 0 <= i < |s.fileIndex| ==>
        CopiedEntry(s, i, r.value[i], fileRecords, base, old(nextFileUid))
      ensures r.Some? ==> FilesMovedUp(s.fileIndex, r.value, selectionBase)
      ensures r.Some? <==> FilesChecked(s) && Rewritable(s, old(nextFileUid))
      ensures r.Some? && Packed(old(Snap())) ==> Packed(Snap().(fileIndex := fileIndex + r.value))
    {
      hide Rewritten, Packed, FilesMovedUp, Shifted, FileAt;
      NoneMovedUp(s.fileIndex, selectionBase);
      ghost var s0 := Snap();
      ghost var uid := nextFileUid;
      var entries: seq<FileCell> := [];
      assert fileIndex + entries == fileIndex;
      for i := 0 to |s.fileIndex|
        invariant |entries| == i && nextFileUid == uid + i && old(fileRecords) <= fileRecords
        invariant forall j :: 0 <= j < i ==> CopiedEntry(s, j, entries[j], fileRecords, base, uid)
        invariant FilesMovedUp(s.fileIndex[..i], entries, selectionBase)
        invariant forall j :: 0 <= j < i ==> FileChecked(s, j)
        invariant Packed(s0) ==> Packed(Snap().(fileIndex := fileIndex + entries))
      {
        var entry := s.fileIndex[i];
        if entry.offset < 0 || entry.length <= 0 || entry.offset + entry.length > |s.fileRecords| {
          assert !FileChecked(s, i);
          return None;
        }
        var record := s.fileRecords[entry.offset..entry.offset + entry.length];
        RecordAt(s, i);
        var fileUid := nextFileUid;
        nextFileUid := nextFileUid + 1;
        var rewritten := RewriteFileRecordUid(record, fileUid);
        if rewritten.None? {
          assert Rewritten(FileAt(s, i), uid + i).None?;
          return None;
        }
        if entry.next < -1 || entry.selection < -1 {
          assert !FileChecked(s, i);
          return None;
        }
        RewrittenNonEmpty(record, fileUid);
        var offset := |fileRecords|;
        ghost var before := fileRecords;
        fileRecords := fileRecords + rewritten.value;
        WrittenBehind(before, rewritten.value);
        var copied := FileCell(Shifted(entry.next, base), offset, |rewritten.value|,
                               Shifted(entry.selection, selectionBase));
        forall j | 0 <= j < i ensures CopiedEntry(s, j, entries[j], fileRecords, base, uid) {
          StillCopied(s, j, entries[j], before, fileRecords, base, uid);
        }
        ShiftedSelection(entry.selection, selectionBase);
        OneMovedUp(s.fileIndex, i, entries, selectionBase, copied);
        if Packed(s0) {
          assert fileIndex + (entries + [copied]) == (fileIndex + entries) + [copied];
          PackedMore(Snap().(fileRecords := before, fileIndex := fileIndex + entries),
                     Snap().(fileIndex := fileIndex + (entries + [copied])), copied);
        }
        entries := entries + [copied];
      }
      assert |entries| == |s.fileIndex|;
      forall i | 0 <= i < |s.fileIndex| ensures Rewritten(FileAt(s, i), uid + i).Some? {
        assert CopiedEntry(s, i, entries[i], fileRecords, base, uid);
      }
      return Some(entries);
    }

    /** Shift the first-child links of every directory header that some index entry names. */
    method CopyHeaders(s: Store, b: Bases) returns (r: Option<seq<DirRecord>>)
      ensures r.Some? <==> HeadersChecked(s)
      ensures Checked(s) ==>
        r.Some? && r.value == seq(|s.dirRecords|, i requires 0 <= i < |s.dirRecords| => ShiftHeader(s.dirRecords[i], b))
    {
      var copy := s.dirRecords;
      for i := 0 to |s.dirIndex|
        invariant |copy| == |s.dirRecords|
        invariant forall c :: 0 <= c < i ==> HeaderChecked(s, c)
        invariant forall r :: 0 <= r < |copy| ==> LinksKept(s.dirRecords[r], copy[r])
        invariant Checked(s) ==> forall c :: 0 <= c < i ==>
          copy[s.dirIndex[c].record] == ShiftHeader(s.dirRecords[s.dirIndex[c].record], b)
        invariant Checked(s) ==> forall c :: i <= c < |s.dirIndex| ==>
          copy[s.dirIndex[c].record] == s.dirRecords[s.dirIndex[c].record]
      {
        var record := s.dirIndex[i].record;
        if record < 0 || record >= |copy| {
          assert !HeaderChecked(s, i);
          return None;
        }
        var header := copy[record];
        assert LinksKept(s.dirRecords[record], copy[record]);
        if header.fileFirst < -1 || header.dirFirst < -1 {
          assert !HeaderChecked(s, i);
          return None;
        }
        copy := copy[record := ShiftHeader(header, b)];
      }
      if |copy| == |s.dirRecords| {
        forall r | Checked(s) && 0 <= r < |copy| ensures copy[r] == ShiftHeader(s.dirRecords[r], b) {
          assert HasCell(s, r);
        }
      }
      return Some(copy);
    }

    method CopyDirectoryEntries(s: Store, b: Bases) returns (r: Option<seq<DirCell>>)
      ensures Checked(s) ==>
        r.Some? && r.value == seq(|s.dirIndex|, i requires 0 <= i < |s.dirIndex| => ShiftCell(s.dirIndex[i], b))
      ensures r.Some? <==> CellsChecked(s)
      ensures r.Some? ==> DirsMovedUp(s.dirIndex, r.value, b.selection)
    {
      var entries: seq<DirCell> := [];
      for i := 0 to |s.dirIndex|
        invariant |entries| == i
        invariant forall j :: 0 <= j < i ==> entries[j] == ShiftCell(s.dirIndex[j], b) && CellChecked(s.dirIndex[j])
      {
        var entry := s.dirIndex[i];
        if entry.next < -1 || entry.record < -1 || entry.selection < -1 {
          assert !CellChecked(s.dirIndex[i]);
          return None;
        }
        entries := entries + [ShiftCell(entry, b)];
      }
      return Some(entries);
    }

    /** Append a complete source; the result is its two top-level chains at their new place. */
    method AppendMergeSource(src: Source) returns (r: Option<(IndexChain, IndexChain)>)
      modifies this
      ensures Grown(old(Snap()), Snap())
      ensures var b := Bases(|old(fileIndex)|, |old(dirIndex)|, |old(dirRecords)|, old(selectionCount));
              Checked(src.store) && r.Some? ==>
                && Relocated(src.store, Snap(), b, old(nextFileUid))
                && nextFileUid == old(nextFileUid) + |src.store.fileIndex|
                && r.value.0 == IndexChain(Shifted(src.files.first, b.files), Shifted(src.files.last, b.files),
                                           src.files.count)
                && r.value.1 == IndexChain(Shifted(src.dirs.first, b.cells), Shifted(src.dirs.last, b.cells),
                                           src.dirs.count)
      ensures r.Some? <==>
        && FilesChecked(src.store) && HeadersChecked(src.store) && CellsChecked(src.store)
        && Rewritable(src.store, old(nextFileUid))
        && src.files.first >= -1 && src.files.last >= -1 && src.dirs.first >= -1 && src.dirs.last >= -1
      ensures r.Some? && Packed(old(Snap())) ==> Packed(Snap())
      // the source's selections continue the store's
      ensures r.Some? ==> selectionCount == old(selectionCount) + src.selectionCount
      ensures r.Some? && Given(src.store, 0, src.selectionCount) ==>
        GivenOut(old(Snap()), Snap(), old(selectionCount), selectionCount)
    {
      hide Rewritten, Packed, Relocated, CopiedEntry, Checked, Rewritable, Grown, GivenOut, FilesChecked,
           HeadersChecked, CellsChecked, FilesMovedUp, DirsMovedUp;
      ghost var s0 := Snap();
      ghost var uid := nextFileUid;
      var s := src.store;
      var b := Bases(|fileIndex|, |dirIndex|, |dirRecords|, selectionCount);
      var entries := CopyFileEntries(s, b.files, b.selection);
      GrownBy(s0, Snap(), [], [], []);
      if entries.None? { return None; }
      fileIndex := fileIndex + entries.value;
      ghost var placed := Snap();
      GrownBy(s0, placed, entries.value, [], []);
      var headers := CopyHeaders(s, b);
      if headers.None? { return None; }
      dirRecords := dirRecords + headers.value;
      GrownBy(s0, Snap(), entries.value, headers.value, []);
      var cells := CopyDirectoryEntries(s, b);
      if cells.None? { return None; }
      dirIndex := dirIndex + cells.value;
      selectionCount := selectionCount + src.selectionCount;
      if Packed(s0) { PackedSame(placed, Snap()); }
      if Given(s, 0, src.selectionCount) {
        SourceNumbered(s, s0, Snap(), entries.value, cells.value, b.selection, src.selectionCount);
      }
      GrownBy(s0, Snap(), entries.value, headers.value, cells.value);
      if Checked(s) { RelocationDone(s, s0, Snap(), entries.value, headers.value, cells.value, b, uid); }
      if src.files.first < -1 || src.files.last < -1 || src.dirs.first < -1 || src.dirs.last < -1 {
        return None;
      }
      return Some((
        IndexChain(Shifted(src.files.first, b.files), Shifted(src.files.last, b.files), src.files.count),
        IndexChain(Shifted(src.dirs.first, b.cells), Shifted(src.dirs.last, b.cells), src.dirs.count)));
    }

    // ----- building a store from a parsed index

    /** Reserve a directory's header; it is completed when its children are known. */
    method BeginDirectory() returns (record: nat)
      modifies this`dirRecords, this`selectionCount
      ensures record == |old(dirRecords)| && dirRecords == old(dirRecords) + [DirRecord(None, 0, -1, 0, -1, 0, 0, 0)]
      ensures selectionCount == old(selectionCount) + 1
    {
      record := |dirRecords|;
      selectionCount := selectionCount + 1;
      dirRecords := dirRecords + [DirRecord(None, 0, -1, 0, -1, 0, 0, 0)];
    }

    /** `None` when the chain's last cell lies outside the index. */
    method AppendFileIndex(chain: IndexChain, offset: int, length: int, selection: int) returns (r: Option<IndexChain>)
      modifies this`fileIndex
      ensures chain.last < |old(fileIndex)| ==>
        r == Some(Pushed(chain, |old(fileIndex)|))
        && fileIndex == PushFile(old(fileIndex), chain, FileCell(-1, offset, length, selection))
    {
      var at := |fileIndex|;
      fileIndex := fileIndex + [FileCell(-1, offset, length, selection)];
      var first := chain.first;
      if chain.last >= 0 {
        if chain.last >= |fileIndex| { return None; }
        fileIndex := fileIndex[chain.last := fileIndex[chain.last].(next := at)];
      } else {
        first := at;
      }
      return Some(IndexChain(first, at, chain.count + 1));
    }

    method AppendDirectoryIndex(chain: IndexChain, record: nat, selection: int) returns (r: Option<IndexChain>)
      modifies this`dirIndex
      ensures chain.last < |old(dirIndex)| ==>
        r == Some(Pushed(chain, |old(dirIndex)|))
        && dirIndex == PushDir(old(dirIndex), chain, DirCell(-1, record, selection))
    {
      var at := |dirIndex|;
      dirIndex := dirIndex + [DirCell(-1, record, selection)];
      var first := chain.first;
      if chain.last >= 0 {
        if chain.last >= |dirIndex| { return None; }
        dirIndex := dirIndex[chain.last := dirIndex[chain.last].(next := at)];
      } else {
        first := at;
      }
      return Some(IndexChain(first, at, chain.count + 1));
    }

    /** Write a file's record, give it a selection and put it at the end of its directory's files. */
    method AppendFile(record: Record, files: IndexChain, ghost s0: Store, ghost fs: seq<nat>, ghost f: Forest,
                      ghost dirs: IndexChain, ghost first: nat)
      returns (chain: IndexChain)
      requires record != [] && Built(s0, Snap(), fs, f)
      requires ChainOfFiles(Snap(), files, fs) && ChainOfDirs(Snap(), dirs, f)
      requires GivenOut(s0, Snap(), first, selectionCount) && (Packed(s0) ==> Packed(Snap()))
      modifies this`fileRecords, this`fileIndex, this`selectionCount
      ensures var fs' := fs + [|old(fileIndex)|];
        && Built(s0, Snap(), fs', f) && ChainOfFiles(Snap(), chain, fs') && ChainOfDirs(Snap(), dirs, f)
        && FilesAt(Snap(), fs') == FilesAt(old(Snap()), fs) + [record] && Value(Snap(), f) == Value(old(Snap()), f)
      ensures GivenOut(s0, Snap(), first, selectionCount) && (Packed(s0) ==> Packed(Snap()))
    {
      hide GivenOut, Packed, FilesAt, Value, Built, ChainOfFiles, ChainOfDirs, PushFile, Pushed;
      ghost var s := Snap();
      ChainEnds(s, files, fs, dirs, f);
      var offset := |fileRecords|;
      fileRecords := fileRecords + record;
      var selection := selectionCount;
      selectionCount := selectionCount + 1;
      var r := AppendFileIndex(files, offset, |record|, selection);
      ghost var cell := FileCell(-1, offset, |record|, selection);
      BuiltFile(s0, s, Snap(), fs, f, files, dirs, record, cell);
      if Packed(s0) { PackedFile(s, Snap(), files, record, cell); }
      FileNumbered(s0, s, Snap(), files, cell, first);
      chain := r.value;
    }

    /** Put a directory that was just parsed at the end of its parent's subdirectories; `s` is the store before. */
    method AppendDirectory(record: nat, selection: nat, dirs: IndexChain, ghost s0: Store, ghost s: Store,
                           ghost fs: seq<nat>, ghost f: Forest, ghost files: IndexChain, ghost gs: seq<nat>,
                           ghost k: Forest, ghost first: nat)
      returns (chain: IndexChain)
      requires Built(s0, s, fs, f) && ChainOfFiles(s, files, fs) && ChainOfDirs(s, dirs, f)
      requires BuiltDirectory(s, Snap(), record, gs, k) && (Packed(s0) ==> Packed(Snap()))
      requires GivenOut(s0, s, first, selection) && GivenOut(s, Snap(), selection + 1, selectionCount)
      modifies this`dirIndex
      ensures var one := Node(|old(dirIndex)|, record, gs, k, Nil);
        && Built(s0, Snap(), fs, Concat(f, one))
        && ChainOfFiles(Snap(), files, fs) && ChainOfDirs(Snap(), chain, Concat(f, one))
        && FilesAt(Snap(), fs) == FilesAt(s, fs)
        && Value(Snap(), Concat(f, one)) ==
           D.Append(Value(s, f), D.Dir(NameAt(old(Snap()), record), FilesAt(old(Snap()), gs), Value(old(Snap()), k),
                                       D.Nil))
      ensures GivenOut(s0, Snap(), first, selectionCount) && (Packed(s0) ==> Packed(Snap()))
    {
      hide GivenOut, Packed, FilesAt, Value, Built, BuiltDirectory, ChainOfFiles, ChainOfDirs, PushDir, Pushed, Concat,
           NameAt, D.Append;
      ghost var s1, cell := Snap(), DirCell(-1, record, selection);
      ChainEnds(s, files, fs, dirs, f);
      BuiltLonger(s, s1, record, gs, k);
      var r := AppendDirectoryIndex(dirs, record, selection);
      BuiltDir(s0, s, s1, Snap(), fs, f, files, dirs, record, gs, k, cell);
      if Packed(s0) { PackedSame(s1, Snap()); }
      DirNumbered(s0, s, s1, Snap(), dirs, cell, first, selectionCount);
      chain := r.value;
    }

    /** Write a directory's children; directories within write theirs first. */
    method ParseContents(items: Items)
      returns (files: IndexChain, dirs: IndexChain, totalFiles: int, totalDirs: int, ghost fs: seq<nat>,
               ghost f: Forest)
      requires Written(items)
      modifies this`fileRecords, this`fileIndex, this`dirIndex, this`dirRecords, this`selectionCount
      ensures Built(old(Snap()), Snap(), fs, f)
      ensures ChainOfFiles(Snap(), files, fs) && ChainOfDirs(Snap(), dirs, f)
      ensures FilesAt(Snap(), fs) == ItemFiles(items) && Value(Snap(), f) == ItemDirs(items)
      ensures totalFiles == |fs| + FileTotal(f) && totalDirs == Size(f)
      ensures Packed(old(Snap())) ==> Packed(Snap())
      ensures GivenOut(old(Snap()), Snap(), old(selectionCount), selectionCount)
      decreases items, 0
    {
      hide GivenOut, Packed, FilesAt, Value, Separated, DirSeg, FileSeg, Cells, Records, FileCells, TotalsTrue, Built,
           BuiltDirectory, ChainOfFiles, ChainOfDirs, Size, FileTotal, Concat, Elements, PushFile, PushDir, Pushed,
           NameAt, D.Append;
      ghost var s0, first := Snap(), selectionCount;
      NothingGiven(s0, first);
      var rest := items;
      files, dirs, totalFiles, totalDirs := EmptyChain, EmptyChain, 0, 0;
      fs, f := [], Nil;
      NothingBuilt(s0, items);
      while rest != NoMore
        invariant Written(rest)
        invariant Built(s0, Snap(), fs, f) && ChainOfFiles(Snap(), files, fs) && ChainOfDirs(Snap(), dirs, f)
        invariant FilesAt(Snap(), fs) + ItemFiles(rest) == ItemFiles(items)
        invariant D.Append(Value(Snap(), f), ItemDirs(rest)) == ItemDirs(items)
        invariant totalFiles == |fs| + FileTotal(f) && totalDirs == Size(f)
        invariant Packed(s0) ==> Packed(Snap())
        invariant GivenOut(s0, Snap(), first, selectionCount)
        invariant rest == items || rest < items
        decreases rest
      {
        ghost var s := Snap();
        match rest {
          case FileItem(record, next) =>
            files := AppendFile(record, files, s0, fs, f, dirs, first);
            OneFileMore(FilesAt(s, fs), record, next);
            fs := fs + [|s.fileIndex|];
            totalFiles := totalFiles + 1;
            rest := next;
          case DirItem(name, uid, contents, next) =>
            var record, selection, fileCount, dirCount;
            ghost var gs, k;
            record, selection, fileCount, dirCount, gs, k := ParseDirectory(name, uid, contents);
            ghost var s1 := Snap();
            dirs := AppendDirectory(record, selection, dirs, s0, s, fs, f, files, gs, k, first);
            totalFiles := totalFiles + fileCount;
            totalDirs := totalDirs + 1 + dirCount;
            ghost var one := Node(|s1.dirIndex|, record, gs, k, Nil);
            OneMore(f, one, Value(s1, k), NameAt(s1, record), ItemFiles(contents), ItemDirs(next));
            D.AppendAssoc(Value(s, f), D.Dir(NameAt(s1, record), FilesAt(s1, gs), Value(s1, k), D.Nil), ItemDirs(next));
            f := Concat(f, one);
            rest := next;
        }
      }
      D.AppendNil(Value(Snap(), f));
    }

    /** Write one directory: header first, then its children, then the completed header. */
    method ParseDirectory(name: Option<string>, uid: int, contents: Items)
      returns (record: nat, selection: nat, totalFiles: int, totalDirs: int, ghost gs: seq<nat>, ghost k: Forest)
      requires Written(contents)
      modifies this`fileRecords, this`fileIndex, this`dirIndex, this`dirRecords, this`selectionCount
      ensures BuiltDirectory(old(Snap()), Snap(), record, gs, k)
      ensures FilesAt(Snap(), gs) == ItemFiles(contents) && Value(Snap(), k) == ItemDirs(contents)
      ensures NameAt(Snap(), record) == match name case None => "" case Some(n) => n
      ensures totalFiles == |gs| + FileTotal(k) && totalDirs == Size(k)
      ensures Packed(old(Snap())) ==> Packed(Snap())
      // the directory's own number comes before those of what it holds
      ensures selection == old(selectionCount)
      ensures GivenOut(old(Snap()), Snap(), old(selectionCount) + 1, selectionCount)
      decreases contents, 1
    {
      hide GivenOut, SameSelections, Packed, FilesAt, Value, Separated, DirSeg, FileSeg, Cells, Records, FileCells,
           TotalsTrue, Built, BuiltDirectory;
      ghost var s := Snap();
      selection := selectionCount;
      record := BeginDirectory();
      ghost var s0 := Snap();
      if Packed(s) { PackedSame(s, s0); }
      NothingGiven(s, selectionCount);
      SameCells(s, s0);
      SameGiven(s, s, s0, selectionCount, selectionCount);
      var files, dirs;
      files, dirs, totalFiles, totalDirs, gs, k := ParseContents(contents);
      ghost var s1 := Snap();
      BuiltRecords(s0, s1, gs, k);
      var header := DirRecord(name, uid, files.first, files.count, dirs.first, dirs.count, totalFiles, totalDirs);
      FinishDirectory(record, header);
      if Packed(s) { PackedSame(s1, Snap()); }
      GivenMore(s, s0, s1, selection + 1, selection + 1, selectionCount);
      SameCells(s1, Snap());
      SameGiven(s, s1, Snap(), selection + 1, selectionCount);
      HeaderCompleted(s, s0, s1, Snap(), DirRecord(None, 0, -1, 0, -1, 0, 0, 0), header, record, gs, k, files, dirs);
    }

    method FinishDirectory(record: nat, header: DirRecord)
      requires record < |dirRecords|
      modifies this`dirRecords
      ensures dirRecords == old(dirRecords)[record := header]
    {
      dirRecords := dirRecords[record := header];
    }
  }

  /** A header's links are below -1 exactly when they were, shifted or not. */
  predicate LinksKept(before: DirRecord, after: DirRecord) {
    (before.fileFirst >= -1 <==> after.fileFirst >= -1) && (before.dirFirst >= -1 <==> after.dirFirst >= -1)
  }

  lemma RecordAt(s: Store, i: nat)
    requires i < |s.fileIndex| && InRecords(s, s.fileIndex[i])
    ensures var e := s.fileIndex[i]; FileAt(s, i) == s.fileRecords[e.offset..e.offset + e.length]
  {
  }

  lemma WrittenBehind(before: seq<Event>, record: Record)
    ensures (before + record)[|before|..|before| + |record|] == record
  {
  }

  lemma ShiftedSelection(selection: int, base: nat)
    ensures Shifted(selection, base) == if selection == -1 then -1 else selection + base
  {
  }

  lemma StillCopied(s: Store, i: nat, e: FileCell, before: seq<Event>, records: seq<Event>, base: nat, uid: int)
    requires i < |s.fileIndex| && before <= records && CopiedEntry(s, i, e, before, base, uid)
    ensures CopiedEntry(s, i, e, records, base, uid)
  {
    hide Rewritten, FileAt, Shifted;
    assert records[e.offset..e.offset + e.length] == before[e.offset..e.offset + e.length];
  }

  lemma GrownBy(s: Store, s': Store, files: seq<FileCell>, headers: seq<DirRecord>, cells: seq<DirCell>)
    requires s.fileRecords <= s'.fileRecords && s'.fileIndex == s.fileIndex + files
    requires s'.dirIndex == s.dirIndex + cells && s'.dirRecords == s.dirRecords + headers
    ensures Grown(s, s')
  {
  }

  /** The copied parts, behind what was there, are the relocated source. */
  lemma RelocationDone(src: Store, s: Store, s': Store, files: seq<FileCell>, headers: seq<DirRecord>,
                       cells: seq<DirCell>, b: Bases, uid: int)
    requires s.fileRecords <= s'.fileRecords && s'.fileIndex == s.fileIndex + files
    requires s'.dirIndex == s.dirIndex + cells && s'.dirRecords == s.dirRecords + headers
    requires b.files == |s.fileIndex| && b.cells == |s.dirIndex| && b.records == |s.dirRecords|
    requires |files| == |src.fileIndex| && forall i :: 0 <= i < |files| ==>
      CopiedEntry(src, i, files[i], s'.fileRecords, b.files, uid)
    requires headers == seq(|src.dirRecords|, i requires 0 <= i < |src.dirRecords| => ShiftHeader(src.dirRecords[i], b))
    requires cells == seq(|src.dirIndex|, i requires 0 <= i < |src.dirIndex| => ShiftCell(src.dirIndex[i], b))
    ensures Relocated(src, s', b, uid)
  {
    hide Rewritten, ShiftHeader, Shifted;
    forall i: nat | i < |src.fileIndex| ensures RelocatedFile(src, s', b, uid, i) {
      EntryInPlace(src, s, s', files, b, uid, i);
    }
    ShiftedInPlace(src, s', b, cells, headers);
  }

  lemma EntryInPlace(src: Store, s: Store, s': Store, files: seq<FileCell>, b: Bases, uid: int, i: nat)
    requires s'.fileIndex == s.fileIndex + files && b.files == |s.fileIndex|
    requires |files| == |src.fileIndex| && i < |files| && CopiedEntry(src, i, files[i], s'.fileRecords, b.files, uid)
    ensures RelocatedFile(src, s', b, uid, i)
  {
    hide Rewritten, Shifted;
    assert s'.fileIndex[b.files + i] == files[i];
  }

  lemma ShiftedInPlace(src: Store, s': Store, b: Bases, cells: seq<DirCell>, headers: seq<DirRecord>)
    requires b.cells + |cells| == |s'.dirIndex| && cells == s'.dirIndex[b.cells..]
    requires b.records + |headers| == |s'.dirRecords| && headers == s'.dirRecords[b.records..]
    requires headers == seq(|src.dirRecords|, i requires 0 <= i < |src.dirRecords| => ShiftHeader(src.dirRecords[i], b))
    requires cells == seq(|src.dirIndex|, i requires 0 <= i < |src.dirIndex| => ShiftCell(src.dirIndex[i], b))
    ensures forall c :: 0 <= c < |src.dirIndex| ==>
      s'.dirIndex[b.cells + c].next == Shifted(src.dirIndex[c].next, b.cells)
      && s'.dirIndex[b.cells + c].record == Shifted(src.dirIndex[c].record, b.records)
    ensures forall r :: 0 <= r < |src.dirRecords| ==> s'.dirRecords[b.records + r] == ShiftHeader(src.dirRecords[r], b)
  {
    hide ShiftHeader, Shifted;
    forall c | 0 <= c < |src.dirIndex|
      ensures s'.dirIndex[b.cells + c].next == Shifted(src.dirIndex[c].next, b.cells)
              && s'.dirIndex[b.cells + c].record == Shifted(src.dirIndex[c].record, b.records)
    {
      assert s'.dirIndex[b.cells + c] == cells[c];
    }
    forall r | 0 <= r < |src.dirRecords| ensures s'.dirRecords[b.records + r] == ShiftHeader(src.dirRecords[r], b) {
      assert s'.dirRecords[b.records + r] == headers[r];
    }
  }

  lemma OneFileMore(before: seq<Record>, record: Record, next: Items)
    ensures before + ItemFiles(FileItem(record, next)) == (before + [record]) + ItemFiles(next)
    ensures ItemDirs(FileItem(record, next)) == ItemDirs(next)
  {
  }

  /** Parse one input into a store of its own. */
  method ParseMergeSource(items: Items) returns (src: Source, ghost sfs: seq<nat>, ghost sf: Forest)
    requires Written(items)
    ensures SourceOf(src, items, sfs, sf) && Packed(src.store)
    ensures NumberedOnce(src.store, 0, src.selectionCount) && Given(src.store, 0, src.selectionCount)
  {
    hide Built, ChainOfFiles, ChainOfDirs, SourceOf, GivenOut;
    var store := new StoreOutput();
    var files, dirs, totalFiles, totalDirs;
    files, dirs, totalFiles, totalDirs, sfs, sf := store.ParseContents(items);
    src := Source(store.Snap(), files, dirs, store.selectionCount);
    BuiltSource(src, items, sfs, sf);
    GivenOnce(src.store, 0, src.selectionCount);
  }

  lemma RootGiven(s: Store)
    requires s.fileIndex == [] && s.dirIndex == []
    ensures Given(s, 1, 1)
  {
    NothingGiven(NO_CELLS, 1);
    SameCells(NO_CELLS, s);
  }

  lemma SourceGiven(s: Store, s1: Store, s2: Store, files: IndexChain, files': IndexChain, dirs: IndexChain,
                    dirs': IndexChain, count: nat, more: nat)
    requires Given(s, 1, count) && GivenOut(s, s1, count, more)
    requires s2.fileIndex == JoinFiles(s1.fileIndex, files, files').0
    requires s2.dirIndex == JoinDirs(s1.dirIndex, dirs, dirs').0
    ensures Given(s2, 1, more)
  {
    GivenMore(NO_CELLS, s, s1, 1, count, more);
    JoinedSelections(s1, s2, files, files', dirs, dirs');
    SameGiven(NO_CELLS, s1, s2, 1, more);
  }

  lemma SelectionsGiven(s: Store, s1: Store, s2: Store, count: nat)
    requires Given(s, 1, count) && SameSelections(s, s1)
    requires s2.fileIndex == s1.fileIndex && s2.dirIndex == s1.dirIndex
    ensures NumberedOnce(s2, 1, count)
  {
    SameGiven(NO_CELLS, s, s1, 1, count);
    SameCells(s1, s2);
    SameGiven(NO_CELLS, s1, s2, 1, count);
    GivenOnce(s2, 1, count);
  }

  /** Merge several parsed schemas into one store under a new root directory.  It fails exactly
      when some file record of some input cannot be rewritten. */
  method MergeSchemas(inputs: seq<Items>, rootName: string)
    returns (store: StoreOutput, ok: bool, ghost fs: seq<nat>, ghost g: Forest)
    requires forall i :: 0 <= i < |inputs| ==> Written(inputs[i])
    ensures ok <==> forall i :: 0 <= i < |inputs| ==> AllAccepted(inputs[i])
    ensures ok ==> MergedStore(store.Snap(), fs, g, inputs, rootName, store.nextFileUid)
    // the root has selection 0, and every other number up to the count is that of exactly one cell
    ensures ok ==> store.selectionCount > 0 && NumberedOnce(store.Snap(), 1, store.selectionCount)
  {
    hide Packed, Touches, MergeState, SourceOf, WellFormed, Relocated, Checked, FilesChecked, HeadersChecked,
         CellsChecked, Rewritable, Collected, Grown,
         AllAccepted, Written, MergedStore, Normalized, JoinFiles, JoinDirs, AllFiles, AllDirs, GivenOut,
         NumberedOnce, SameSelections;
    store := new StoreOutput();
    fs, g := [], Nil;
    var root := store.BeginDirectory();
    var sources: seq<Source> := [];
    ghost var layouts: seq<(seq<nat>, Forest)> := [];
    ghost var s0 := store.Snap();
    for i := 0 to |inputs|
      invariant fresh(store) && store.Snap() == s0 && store.nextFileUid == 1 && store.selectionCount == 1
      invariant |sources| == i == |layouts|
      invariant forall j :: 0 <= j < i ==> SourceOf(sources[j], inputs[j], layouts[j].0, layouts[j].1)
                                           && Given(sources[j].store, 0, sources[j].selectionCount)
    {
      var src;
      ghost var sfs, sf;
      src, sfs, sf := ParseMergeSource(inputs[i]);
      sources := sources + [src];
      layouts := layouts + [(sfs, sf)];
    }

    var files, dirs := EmptyChain, EmptyChain;
    ghost var f := Nil;
    MergingStart(store.Snap());
    RootGiven(store.Snap());
    for i := 0 to |sources|
      invariant fresh(store)
      invariant MergeState(store.Snap(), files, dirs, fs, f, inputs[..i], store.nextFileUid)
      invariant store.selectionCount > 0 && Given(store.Snap(), 1, store.selectionCount)
      invariant forall j :: 0 <= j < i ==> AllAccepted(inputs[j])
    {
      ghost var s, uid := store.Snap(), store.nextFileUid;
      ghost var b := Bases(|store.fileIndex|, |store.dirIndex|, |store.dirRecords|, store.selectionCount);
      SourceChecked(sources[i], inputs[i], layouts[i].0, layouts[i].1);
      SourceAccepted(sources[i], inputs[i], layouts[i].0, layouts[i].1, uid);
      CheckedParts(sources[i].store);
      var r := store.AppendMergeSource(sources[i]);
      if r.None? {
        ok := false;
        return;
      }
      ghost var s1 := store.Snap();
      RootEnds(s, s1, files, dirs, fs, f, inputs[..i], uid);
      var joinedFiles := store.JoinFileChains(files, r.value.0);
      var joinedDirs := store.JoinDirectoryChains(dirs, r.value.1);
      SourceGiven(s, s1, store.Snap(), files, r.value.0, dirs, r.value.1, b.selection, store.selectionCount);
      MergingStep(s, s1, store.Snap(), files, dirs, fs, f, inputs[..i], inputs[i], sources[i], layouts[i].0,
                  layouts[i].1, b, uid);
      assert inputs[..i] + [inputs[i]] == inputs[..i + 1];
      files, dirs := joinedFiles.value, joinedDirs.value;
      fs, f := fs + ShiftFiles(layouts[i].0, b.files), Concat(f, ShiftForest(layouts[i].1, b));
    }
    assert inputs[..|sources|] == inputs;

    ghost var s, uid := store.Snap(), store.nextFileUid;
    RootChains(s, files, dirs, fs, f, inputs, uid);
    var rootFiles := store.ReadFileChain(files.first, files.count);
    ReadFilesIff(s, files.first, files.count, fs);
    var rootDirs;
    rootDirs, g := store.NormalizeDirectoryChain(dirs, f);
    ghost var s1 := store.Snap();
    NormalizedTotals(s, s1, f, g, rootDirs.first, uid, store.nextFileUid);
    NormalizedSelections(s, s1, f, g, rootDirs.first, uid, store.nextFileUid);
    var totalFiles, totalDirs := store.CalculateDirectoryTotals(rootFiles.value.count, rootDirs, g);
    var header := DirRecord(Some(rootName), 0, rootFiles.value.first, rootFiles.value.count, rootDirs.first,
                            rootDirs.count, totalFiles, totalDirs);
    store.FinishDirectory(0, header);
    SelectionsGiven(s, s1, store.Snap(), store.selectionCount);
    MergingEnd(s, s1, store.Snap(), files, dirs, fs, f, g, rootDirs, inputs, uid, store.nextFileUid, header, rootName);
    ok := true;
  }
}
