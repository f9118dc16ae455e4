/** How a directory forest lies in the backing store: intrusive chains of index cells,
    headers that point at their first child, and the facts about cutting and joining chains.
    Positions are cell numbers, that is, byte offset divided by entry size. */
module IndexStore {
  import opened Common
  import opened XmlEvents
  import D = DirectoryTree

  type Record = seq<Event>

  datatype FileCell = FileCell(next: int, offset: int, length: int, selection: int)

  datatype DirCell = DirCell(next: int, record: int, selection: int)

  datatype DirRecord = DirRecord(
    name: Option<string>, uid: int, fileFirst: int, fileCount: int, dirFirst: int, dirCount: int,
    totalFiles: int, totalDirs: int)

  datatype Store = Store(
    fileRecords: seq<Event>, fileIndex: seq<FileCell>, dirIndex: seq<DirCell>, dirRecords: seq<DirRecord>)

  datatype IndexChain = IndexChain(first: int, last: int, count: int)

  const EmptyChain := IndexChain(-1, -1, 0)

  /** Where a forest's parts lie: first child / next sibling, as in `DirectoryTree`. */
  datatype Forest = Nil | Node(cell: nat, record: nat, files: seq<nat>, kids: Forest, rest: Forest)

  // ----- reading the store

  function NameOf(r: DirRecord): string {
    match r.name case None => "" case Some(n) => n
  }

  function NameAt(s: Store, r: nat): string {
    if r < |s.dirRecords| then NameOf(s.dirRecords[r]) else ""
  }

  function UidAt(s: Store, r: nat): int {
    if r < |s.dirRecords| then s.dirRecords[r].uid else 0
  }

  predicate InRecords(s: Store, c: FileCell) {
    0 <= c.offset && 0 < c.length && c.offset + c.length <= |s.fileRecords|
  }

  function FileAt(s: Store, i: nat): Record {
    if i < |s.fileIndex| && InRecords(s, s.fileIndex[i])
    then s.fileRecords[s.fileIndex[i].offset..s.fileIndex[i].offset + s.fileIndex[i].length]
    else []
  }

  function FilesAt(s: Store, cells: seq<nat>): seq<Record> {
    if cells == [] then [] else [FileAt(s, cells[0])] + FilesAt(s, cells[1..])
  }

  /** The forest a layout denotes. */
  function Value(s: Store, f: Forest): D.Dirs<Record> {
    match f
    case Nil => D.Nil
    case Node(_, r, fs, k, t) => D.Dir(NameAt(s, r), FilesAt(s, fs), Value(s, k), Value(s, t))
  }

  function DirUids(s: Store, f: Forest): seq<int> {
    match f
    case Nil => []
    case Node(_, r, _, k, t) => [UidAt(s, r)] + DirUids(s, k) + DirUids(s, t)
  }

  // ----- shape of a layout

  function Length(f: Forest): nat { match f case Nil => 0 case Node(_, _, _, _, t) => 1 + Length(t) }

  function Size(f: Forest): nat {
    match f case Nil => 0 case Node(_, _, _, k, t) => 1 + Size(k) + Size(t)
  }

  function FileTotal(f: Forest): nat {
    match f case Nil => 0 case Node(_, _, fs, k, t) => |fs| + FileTotal(k) + FileTotal(t)
  }

  function Last(f: Forest): int {
    match f
    case Nil => -1
    case Node(c, _, _, _, t) => if t.Nil? then c else Last(t)
  }

  function Concat(a: Forest, b: Forest): Forest {
    match a case Nil => b case Node(c, r, fs, k, t) => Node(c, r, fs, k, Concat(t, b))
  }

  function TopRecords(f: Forest): seq<nat> {
    match f case Nil => [] case Node(_, r, _, _, t) => [r] + TopRecords(t)
  }

  function Cells(f: Forest): set<nat> {
    match f case Nil => {} case Node(c, _, _, k, t) => {c} + Cells(k) + Cells(t)
  }

  function Records(f: Forest): set<nat> {
    match f case Nil => {} case Node(_, r, _, k, t) => {r} + Records(k) + Records(t)
  }

  function Elements(s: seq<nat>): set<nat> { set x | x in s }

  function FileCells(f: Forest): set<nat> {
    match f case Nil => {} case Node(_, _, fs, k, t) => Elements(fs) + FileCells(k) + FileCells(t)
  }

  ghost predicate Distinct(s: seq<nat>) { forall i, j :: 0 <= i < j < |s| ==> s[i] != s[j] }

  /** Two layouts use no cell and no record in common. */
  ghost predicate Apart(a: Forest, b: Forest) {
    Cells(a) !! Cells(b) && Records(a) !! Records(b) && FileCells(a) !! FileCells(b)
  }

  /** No cell and no record is used twice. */
  ghost predicate Separated(f: Forest) {
    match f
    case Nil => true
    case Node(c, r, fs, k, t) =>
      c !in Cells(k) && c !in Cells(t) && r !in Records(k) && r !in Records(t)
      && Distinct(fs) && Elements(fs) !! FileCells(k) && Elements(fs) !! FileCells(t)
      && Apart(k, t) && Separated(k) && Separated(t)
  }

  // ----- chains in the store

  /** The file chain starting at `first` runs through exactly `cells` and then points at `stop`. */
  ghost predicate FileSeg(index: seq<FileCell>, first: int, cells: seq<nat>, stop: int)
    decreases |cells|
  {
    if cells == [] then first == stop
    else first == cells[0] && cells[0] < |index| && FileSeg(index, index[cells[0]].next, cells[1..], stop)
  }

  /** The directory chain starting at `first` lays out `f` and then points at `stop`;
      below, every header's chains lay out that directory's files and subdirectories. */
  ghost predicate DirSeg(s: Store, f: Forest, first: int, stop: int)
    decreases f, 0
  {
    match f
    case Nil => first == stop
    case Node(c, r, fs, k, t) =>
      first == c && c < |s.dirIndex| && s.dirIndex[c].record == r && r < |s.dirRecords|
      && Holds(s, s.dirRecords[r], fs, k)
      && DirSeg(s, t, s.dirIndex[c].next, stop)
  }

  /** A header describes the files `fs` and the subdirectories `k`. */
  ghost predicate Holds(s: Store, h: DirRecord, fs: seq<nat>, k: Forest)
    decreases k, 1
  {
    FileSeg(s.fileIndex, h.fileFirst, fs, -1) && h.fileCount == |fs|
    && DirSeg(s, k, h.dirFirst, -1) && h.dirCount == Length(k)
  }

  ghost predicate ChainOfFiles(s: Store, chain: IndexChain, fs: seq<nat>) {
    FileSeg(s.fileIndex, chain.first, fs, -1) && chain.count == |fs|
    && chain.last == (if fs == [] then -1 else fs[|fs| - 1])
  }

  ghost predicate ChainOfDirs(s: Store, chain: IndexChain, f: Forest) {
    DirSeg(s, f, chain.first, -1) && chain.count == Length(f) && chain.last == Last(f)
  }

  /** Every header's totals are the true counts of its subtree. */
  ghost predicate TotalsTrue(s: Store, f: Forest) {
    match f
    case Nil => true
    case Node(_, r, fs, k, t) =>
      r < |s.dirRecords| && s.dirRecords[r].totalFiles == |fs| + FileTotal(k)
      && s.dirRecords[r].totalDirs == Size(k) && TotalsTrue(s, k) && TotalsTrue(s, t)
  }

  // ----- framing

  /** `s'` keeps what `s` says about `f`; the stores may have grown. */
  ghost predicate Agree(s: Store, s': Store, f: Forest) {
    AgreeOn(s, s', Cells(f), Records(f), FileCells(f))
  }

  ghost predicate AgreeOn(s: Store, s': Store, cells: set<nat>, records: set<nat>, files: set<nat>) {
    && s.fileRecords <= s'.fileRecords
    && (forall c :: c in cells && c < |s.dirIndex| ==> c < |s'.dirIndex| && s'.dirIndex[c] == s.dirIndex[c])
    && (forall r :: r in records && r < |s.dirRecords| ==>
          r < |s'.dirRecords| && s'.dirRecords[r] == s.dirRecords[r])
    && AgreeFiles(s, s', files)
  }

  ghost predicate AgreeFiles(s: Store, s': Store, files: set<nat>) {
    forall i :: i in files && i < |s.fileIndex| ==> i < |s'.fileIndex| && s'.fileIndex[i] == s.fileIndex[i]
  }

  /** From `s` to `s'` only the links of the given cells and the headers of the given records
      have changed; names, file contents and everything else are as before. */
  ghost predicate Touches(s: Store, s': Store, cells: set<nat>, records: set<nat>, files: set<nat>) {
    && s'.fileRecords == s.fileRecords
    && |s'.fileIndex| == |s.fileIndex| && |s'.dirIndex| == |s.dirIndex| && |s'.dirRecords| == |s.dirRecords|
    && (forall c :: 0 <= c < |s.dirIndex| ==>
          s'.dirIndex[c].(next := 0) == s.dirIndex[c].(next := 0)
          && (c !in cells ==> s'.dirIndex[c] == s.dirIndex[c]))
    && (forall r :: 0 <= r < |s.dirRecords| ==>
          s'.dirRecords[r].name == s.dirRecords[r].name
          && (r !in records ==> s'.dirRecords[r] == s.dirRecords[r]))
    && (forall i :: 0 <= i < |s.fileIndex| ==>
          s'.fileIndex[i].(next := 0) == s.fileIndex[i].(next := 0)
          && (i !in files ==> s'.fileIndex[i] == s.fileIndex[i]))
  }

  /** File records lie one behind another in the order of their cells, and none is empty. */
  ghost predicate Packed(s: Store) {
    && (forall i :: 0 <= i < |s.fileIndex| ==> InRecords(s, s.fileIndex[i]))
    && (forall i, j :: 0 <= i < j < |s.fileIndex| ==>
          s.fileIndex[i].offset + s.fileIndex[i].length <= s.fileIndex[j].offset)
  }

  /** Different cells name different record offsets. */
  lemma PackedOffsets(s: Store, i: nat, j: nat)
    requires Packed(s) && i < |s.fileIndex| && j < |s.fileIndex| && s.fileIndex[i].offset == s.fileIndex[j].offset
    ensures i == j
  {
    assert InRecords(s, s.fileIndex[i]) && InRecords(s, s.fileIndex[j]);
  }

  /** Relinking moves no record. */
  lemma PackedTouches(s: Store, s': Store, cells: set<nat>, records: set<nat>, files: set<nat>)
    requires Packed(s) && Touches(s, s', cells, records, files)
    ensures Packed(s')
  {
    forall i | 0 <= i < |s.fileIndex| ensures SamePlace(s.fileIndex[i], s'.fileIndex[i]) {
      assert s'.fileIndex[i].(next := 0) == s.fileIndex[i].(next := 0);
      assert s'.fileIndex[i].(next := 0).offset == s'.fileIndex[i].offset;
      assert s'.fileIndex[i].(next := 0).length == s'.fileIndex[i].length;
    }
    PackedSame(s, s');
  }

  predicate SamePlace(c: FileCell, d: FileCell) { c.offset == d.offset && c.length == d.length }

  lemma PackedSame(s: Store, s': Store)
    requires Packed(s) && s.fileRecords <= s'.fileRecords && |s'.fileIndex| == |s.fileIndex|
    requires forall i :: 0 <= i < |s.fileIndex| ==> SamePlace(s.fileIndex[i], s'.fileIndex[i])
    ensures Packed(s')
  {
    forall i | 0 <= i < |s'.fileIndex| ensures InRecords(s', s'.fileIndex[i]) {
      assert SamePlace(s.fileIndex[i], s'.fileIndex[i]) && InRecords(s, s.fileIndex[i]);
    }
    forall i, j | 0 <= i < j < |s'.fileIndex|
      ensures s'.fileIndex[i].offset + s'.fileIndex[i].length <= s'.fileIndex[j].offset
    {
      assert SamePlace(s.fileIndex[i], s'.fileIndex[i]) && SamePlace(s.fileIndex[j], s'.fileIndex[j]);
    }
  }

  /** A record written at the end, and its cell at the end of the index. */
  lemma PackedMore(s: Store, s': Store, c: FileCell)
    requires Packed(s) && s.fileRecords <= s'.fileRecords && s'.fileIndex == s.fileIndex + [c]
    requires c.offset == |s.fileRecords| && c.length > 0 && c.offset + c.length == |s'.fileRecords|
    ensures Packed(s')
  {
    forall i | 0 <= i < |s'.fileIndex| ensures InRecords(s', s'.fileIndex[i]) {
      if i < |s.fileIndex| { assert InRecords(s, s.fileIndex[i]); }
    }
    forall i, j | 0 <= i < j < |s'.fileIndex|
      ensures s'.fileIndex[i].offset + s'.fileIndex[i].length <= s'.fileIndex[j].offset
    {
      assert InRecords(s, s.fileIndex[i]);
    }
  }

  lemma FileKept(s: Store, s': Store, i: nat)
    requires s.fileRecords <= s'.fileRecords && i < |s.fileIndex| && InRecords(s, s.fileIndex[i])
    requires i < |s'.fileIndex| && s'.fileIndex[i].(next := 0) == s.fileIndex[i].(next := 0)
    ensures InRecords(s', s'.fileIndex[i]) && FileAt(s', i) == FileAt(s, i)
  {
    var a, b := s.fileIndex[i].offset, s.fileIndex[i].offset + s.fileIndex[i].length;
    assert s'.fileIndex[i].offset == a && s'.fileIndex[i].length == b - a by {
      assert s'.fileIndex[i].(next := 0).offset == a;
      assert s'.fileIndex[i].(next := 0).length == b - a;
    }
    assert s'.fileRecords[a..b] == s.fileRecords[a..b];
  }

  lemma {:induction false} FrameFiles(s: Store, s': Store, first: int, fs: seq<nat>, stop: int)
    requires FileSeg(s.fileIndex, first, fs, stop)
    requires s.fileRecords <= s'.fileRecords && AgreeFiles(s, s', Elements(fs))
    requires forall i :: i in fs ==> i < |s.fileIndex| && InRecords(s, s.fileIndex[i])
    ensures FileSeg(s'.fileIndex, first, fs, stop) && FilesAt(s', fs) == FilesAt(s, fs)
    ensures forall i :: i in fs ==> i < |s'.fileIndex| && InRecords(s', s'.fileIndex[i])
    decreases |fs|
  {
    if fs != [] {
      assert fs[0] in Elements(fs);
      FileKept(s, s', fs[0]);
      assert forall i :: i in fs[1..] ==> i in fs;
      FrameFiles(s, s', s.fileIndex[fs[0]].next, fs[1..], stop);
      assert forall i :: i in fs ==> i == fs[0] || i in fs[1..];
    }
  }

  /** These cells point into the record file. */
  ghost predicate FilesIn(s: Store, files: set<nat>) {
    forall i :: i in files ==> i < |s.fileIndex| && InRecords(s, s.fileIndex[i])
  }

  /** Every file cell of the layout points into the record file. */
  ghost predicate FilesPresent(s: Store, f: Forest) { FilesIn(s, FileCells(f)) }

  lemma {:induction false} FrameDirs(s: Store, s': Store, f: Forest, first: int, stop: int)
    requires DirSeg(s, f, first, stop) && Agree(s, s', f) && FilesPresent(s, f)
    ensures DirSeg(s', f, first, stop) && Value(s', f) == Value(s, f) && FilesPresent(s', f)
    ensures DirUids(s', f) == DirUids(s, f)
    ensures TotalsTrue(s, f) ==> TotalsTrue(s', f)
    decreases f, 0
  {
    match f
    case Nil =>
    case Node(c, r, fs, k, t) =>
      FrameHolds(s, s', s.dirRecords[r], fs, k);
      FrameDirs(s, s', t, s.dirIndex[c].next, stop);
  }

  lemma {:induction false} FrameHolds(s: Store, s': Store, h: DirRecord, fs: seq<nat>, k: Forest)
    requires Holds(s, h, fs, k) && Agree(s, s', k) && AgreeFiles(s, s', Elements(fs))
    requires FilesIn(s, Elements(fs)) && FilesPresent(s, k)
    ensures Holds(s', h, fs, k) && FilesIn(s', Elements(fs)) && FilesPresent(s', k)
    ensures FilesAt(s', fs) == FilesAt(s, fs) && Value(s', k) == Value(s, k) && DirUids(s', k) == DirUids(s, k)
    ensures TotalsTrue(s, k) ==> TotalsTrue(s', k)
    decreases k, 1
  {
    assert forall i :: i in fs ==> i in Elements(fs);
    FrameFiles(s, s', h.fileFirst, fs, -1);
    FrameDirs(s, s', k, h.dirFirst, -1);
  }

  // ----- cutting and joining chains

  lemma {:induction false} FileSegJoin(index: seq<FileCell>, first: int, a: seq<nat>, mid: int, b: seq<nat>, stop: int)
    requires FileSeg(index, first, a, mid) && FileSeg(index, mid, b, stop)
    ensures FileSeg(index, first, a + b, stop)
    decreases |a|
  {
    if a == [] {
      assert a + b == b;
    } else {
      FileSegJoin(index, index[a[0]].next, a[1..], mid, b, stop);
      assert (a + b)[1..] == a[1..] + b;
    }
  }

  /** Redirecting the last cell of a chain changes where the chain leads and nothing else. */
  lemma {:induction false} FileSegRedirect(index: seq<FileCell>, first: int, a: seq<nat>, stop: int, stop': int)
    requires FileSeg(index, first, a, stop) && a != [] && Distinct(a)
    ensures a[|a| - 1] < |index|
    ensures FileSeg(index[a[|a| - 1] := index[a[|a| - 1]].(next := stop')], first, a, stop')
    decreases |a|
  {
    if |a| > 1 {
      assert a[1..][|a| - 2] == a[|a| - 1];
      FileSegRedirect(index, index[a[0]].next, a[1..], stop, stop');
    }
  }

  lemma {:induction false} FileSegBounds(index: seq<FileCell>, first: int, a: seq<nat>, stop: int)
    requires FileSeg(index, first, a, stop)
    ensures forall i :: i in a ==> i < |index|
    ensures first != stop ==> a != []
    decreases |a|
  {
    if a != [] {
      FileSegBounds(index, index[a[0]].next, a[1..], stop);
      assert forall i :: i in a ==> i == a[0] || i in a[1..];
    }
  }

  lemma {:induction false} FilesAtAppend(s: Store, a: seq<nat>, b: seq<nat>)
    ensures FilesAt(s, a + b) == FilesAt(s, a) + FilesAt(s, b)
  {
    if a == [] {
      assert a + b == b;
    } else {
      assert (a + b)[1..] == a[1..] + b;
      FilesAtAppend(s, a[1..], b);
    }
  }

  lemma {:induction false} DirSegJoin(s: Store, first: int, a: Forest, mid: int, b: Forest, stop: int)
    requires DirSeg(s, a, first, mid) && DirSeg(s, b, mid, stop)
    ensures DirSeg(s, Concat(a, b), first, stop)
    decreases a
  {
    match a
    case Nil =>
    case Node(c, _, _, _, t) => DirSegJoin(s, s.dirIndex[c].next, t, mid, b, stop);
  }

  lemma {:induction false} ConcatValue(s: Store, a: Forest, b: Forest)
    ensures Value(s, Concat(a, b)) == D.Append(Value(s, a), Value(s, b))
    ensures DirUids(s, Concat(a, b)) == DirUids(s, a) + DirUids(s, b)
    decreases a
  {
    hide FilesAt, NameAt, UidAt;
    match a
    case Nil =>
    case Node(c, r, fs, k, t) =>
      ConcatValue(s, t, b);
      assert Concat(a, b) == Node(c, r, fs, k, Concat(t, b));
  }

  lemma {:induction false} ConcatTotals(s: Store, a: Forest, b: Forest)
    ensures TotalsTrue(s, Concat(a, b)) <==> TotalsTrue(s, a) && TotalsTrue(s, b)
    decreases a
  {
    hide Size, FileTotal;
    match a
    case Nil =>
    case Node(c, r, fs, k, t) =>
      ConcatTotals(s, t, b);
      assert Concat(a, b) == Node(c, r, fs, k, Concat(t, b));
  }

  lemma {:induction false} ConcatShape(a: Forest, b: Forest)
    ensures Length(Concat(a, b)) == Length(a) + Length(b)
    ensures Size(Concat(a, b)) == Size(a) + Size(b)
    ensures FileTotal(Concat(a, b)) == FileTotal(a) + FileTotal(b)
    ensures Last(Concat(a, b)) == if b.Nil? then Last(a) else Last(b)
    ensures TopRecords(Concat(a, b)) == TopRecords(a) + TopRecords(b)
    decreases a
  {
    match a
    case Nil =>
    case Node(c, r, fs, k, t) =>
      ConcatShape(t, b);
  }

  lemma {:induction false} ConcatFootprint(a: Forest, b: Forest)
    ensures Cells(Concat(a, b)) == Cells(a) + Cells(b)
    ensures Records(Concat(a, b)) == Records(a) + Records(b)
    ensures FileCells(Concat(a, b)) == FileCells(a) + FileCells(b)
    decreases a
  {
    match a
    case Nil =>
    case Node(c, r, fs, k, t) =>
      ConcatFootprint(t, b);
  }

  lemma {:induction false} ConcatSeparated(a: Forest, b: Forest)
    ensures Separated(Concat(a, b)) <==> Separated(a) && Separated(b) && Apart(a, b)
    decreases a
  {
    match a
    case Nil =>
    case Node(c, r, fs, k, t) =>
      ConcatSeparated(t, b);
      ConcatFootprint(t, b);
      var u := Concat(t, b);
      assert Concat(a, b) == Node(c, r, fs, k, u);
      ApartNode(c, r, fs, k, t, b);
      ApartUnion(k, t, b, u);
  }

  lemma ApartNode(c: nat, r: nat, fs: seq<nat>, k: Forest, t: Forest, b: Forest)
    ensures Apart(Node(c, r, fs, k, t), b) <==>
            c !in Cells(b) && r !in Records(b) && Elements(fs) !! FileCells(b) && Apart(k, b) && Apart(t, b)
  {
  }

  lemma ApartUnion(k: Forest, t: Forest, b: Forest, u: Forest)
    requires Cells(u) == Cells(t) + Cells(b) && Records(u) == Records(t) + Records(b)
             && FileCells(u) == FileCells(t) + FileCells(b)
    ensures Apart(k, u) <==> Apart(k, t) && Apart(k, b)
  {
    hide Cells, Records, FileCells;
  }

  lemma {:induction false} LastIn(f: Forest)
    requires f.Node?
    ensures Last(f) in Cells(f)
  {
    match f
    case Node(_, _, _, _, t) => if t.Node? { LastIn(t); }
  }

  function Relink(s: Store, cell: int, next: int): Store {
    if 0 <= cell < |s.dirIndex| then s.(dirIndex := s.dirIndex[cell := s.dirIndex[cell].(next := next)]) else s
  }

  lemma {:induction false} DirSegRedirect(s: Store, f: Forest, first: int, stop: int, stop': int)
    requires DirSeg(s, f, first, stop) && f.Node? && Separated(f) && FilesPresent(s, f)
    ensures 0 <= Last(f) < |s.dirIndex|
    ensures var s' := Relink(s, Last(f), stop');
            DirSeg(s', f, first, stop')
    decreases f
  {
    match f
    case Node(c, r, fs, k, t) =>
      var s' := Relink(s, Last(f), stop');
      if t.Node? {
        LastIn(t);
        DirSegRedirect(s, t, s.dirIndex[c].next, stop, stop');
        assert Last(f) == Last(t) != c;
      }
      assert Last(f) !in Cells(k);
      FrameHolds(s, s', s.dirRecords[r], fs, k);
  }
}
