/** The two passes over a directory chain, as steps between store states: the scan that folds
    duplicates into the first directory of their name, and the pass over the survivors. */
module MergeProof {
  import opened Common
  import opened IndexStore
  import opened ChainSurgery
  import D = DirectoryTree

  /** The numbers a, a+1, ..., b-1. */
  function Range(a: int, b: int): seq<int>
    decreases b - a
  {
    if a >= b then [] else [a] + Range(a + 1, b)
  }

  lemma {:induction false} RangeSplit(a: int, b: int, c: int)
    requires a <= b <= c
    ensures Range(a, c) == Range(a, b) + Range(b, c)
    decreases b - a
  {
    if a < b {
      RangeSplit(a + 1, b, c);
    } else {
      assert Range(a, b) + Range(b, c) == Range(b, c);
    }
  }

  ghost predicate Inside(g: Forest, f: Forest) {
    Cells(g) <= Cells(f) && Records(g) <= Records(f) && FileCells(g) <= FileCells(f)
  }

  /** A forest laid out from `first` to `stop`, sharing nothing within itself. */
  ghost predicate Laid(s: Store, f: Forest, first: int, stop: int) {
    DirSeg(s, f, first, stop) && Separated(f) && FilesPresent(s, f)
  }

  /** Between two steps of the scan: survivors `done`, unread rest `todo`. */
  ghost predicate Scanning(s0: Store, s: Store, f: Forest, done: Forest, todo: Forest, first: int, current: int) {
    && Laid(s, done, first, current) && Laid(s, todo, current, -1) && Apart(done, todo)
    && Inside(done, f) && Inside(todo, f) && FileCells(done) + FileCells(todo) == FileCells(f)
    && Size(done) + Size(todo) <= Size(f) && FileTotal(done) + FileTotal(todo) == FileTotal(f)
    && Touches(s0, s, Cells(f), Records(f), FileCells(f))
    && D.Scan(Value(s, done), Value(s, todo)) == D.Scan(D.Nil, Value(s0, f))
  }

  /** The first directory of a layout, alone. */
  function Head(f: Forest): Forest
    requires f.Node?
  {
    Node(f.cell, f.record, f.files, f.kids, Nil)
  }

  lemma HeadShape(f: Forest)
    requires f.Node?
    ensures Cells(f) == Cells(Head(f)) + Cells(f.rest) && Records(f) == Records(Head(f)) + Records(f.rest)
    ensures FileCells(f) == FileCells(Head(f)) + FileCells(f.rest)
    ensures Size(f) == Size(Head(f)) + Size(f.rest) && FileTotal(f) == FileTotal(Head(f)) + FileTotal(f.rest)
    ensures Separated(f) ==> Separated(Head(f)) && Separated(f.rest) && Apart(Head(f), f.rest)
  {
  }

  lemma HeadLaid(s: Store, f: Forest, first: int, stop: int)
    requires Laid(s, f, first, stop) && f.Node?
    ensures 0 <= first < |s.dirIndex|
    ensures Laid(s, Head(f), first, s.dirIndex[first].next) && Laid(s, f.rest, s.dirIndex[first].next, stop)
  {
    HeadShape(f);
  }

  lemma LaidConcat(s: Store, a: Forest, first: int, mid: int, b: Forest, stop: int)
    requires Laid(s, a, first, mid) && Laid(s, b, mid, stop) && Apart(a, b)
    ensures Laid(s, Concat(a, b), first, stop)
  {
    DirSegJoin(s, first, a, mid, b, stop);
    ConcatFootprint(a, b);
    ConcatSeparated(a, b);
  }

  lemma ScanNewValue(s: Store, done: Forest, todo: Forest)
    requires todo.Node? && Lookup(s, done, NameAt(s, todo.record)).None?
    ensures D.Scan(Value(s, Concat(done, Head(todo))), Value(s, todo.rest)) == D.Scan(Value(s, done), Value(s, todo))
  {
    AbsorbNew(s, done, NameAt(s, todo.record), todo.files, todo.kids, todo.cell, todo.record);
  }

  /** A name seen for the first time: the directory joins the survivors, nothing is written. */
  lemma ScanNew(s0: Store, s: Store, f: Forest, done: Forest, todo: Forest, first: int, current: int)
    requires Scanning(s0, s, f, done, todo, first, current) && todo.Node?
    requires Lookup(s, done, NameAt(s, todo.record)).None?
    ensures 0 <= current < |s.dirIndex|
    ensures Scanning(s0, s, f, Concat(done, Head(todo)), todo.rest, first, s.dirIndex[current].next)
  {
    hide Cells, Records, FileCells, Separated, DirSeg, Touches, Size, FileTotal, Concat, D.Scan, Lookup, Value;
    var one := Head(todo);
    HeadShape(todo);
    HeadLaid(s, todo, current, -1);
    assert Apart(done, one) && Apart(done, todo.rest);
    LaidConcat(s, done, first, current, one, s.dirIndex[current].next);
    ConcatShape(done, one);
    ConcatFootprint(done, one);
    ScanNewValue(s, done, todo);
  }

  /** The duplicate and its primary may be merged. */
  lemma DuplicateMergeable(s: Store, done: Forest, todo: Forest, first: int, current: int, name: string)
    requires Laid(s, done, first, current) && Laid(s, todo, current, -1) && Apart(done, todo)
    requires todo.Node? && Lookup(s, done, name).Some?
    ensures var p := Lookup(s, done, name).value;
            Mergeable(s, p, todo.record, FilesUnder(done, p), KidsUnder(done, p), todo.files, todo.kids)
  {
    PrimaryFacts(s, done, first, current, name);
  }

  /** Moving the duplicate touches only what belongs to the survivors. */
  lemma MoveTouches(s: Store, s1: Store, done: Forest, todo: Forest, first: int, current: int, p: nat)
    requires Laid(s, done, first, current) && Laid(s, todo, current, -1) && Apart(done, todo) && todo.Node?
    requires Lookup(s, done, NameAt(s, todo.record)) == Some(p)
    requires p < |s.dirRecords| && todo.record < |s.dirRecords| && MergeRecords(s, p, todo.record) == Some(s1)
    ensures Touches(s, s1, Cells(KidsUnder(done, p)), {p}, Elements(FilesUnder(done, p)))
    ensures Touches(s, s1, Cells(done), Records(done), FileCells(done))
    ensures p < |s1.dirRecords|
    ensures Holds(s1, s1.dirRecords[p], FilesUnder(done, p) + todo.files, Concat(KidsUnder(done, p), todo.kids))
  {
    DuplicateMergeable(s, done, todo, first, current, NameAt(s, todo.record));
    MergeRecordsHolds(s, p, todo.record, FilesUnder(done, p), KidsUnder(done, p), todo.files, todo.kids);
    hide Mergeable, Holds, Laid, MergeRecords;
    PrimaryFacts'(s, done, first, current, NameAt(s, todo.record));
  }

  lemma PrimaryFacts'(s: Store, f: Forest, first: int, stop: int, name: string)
    requires Laid(s, f, first, stop) && Lookup(s, f, name).Some?
    ensures var p := Lookup(s, f, name).value;
            p in TopRecords(f) && p in Records(f) && Elements(FilesUnder(f, p)) <= FileCells(f)
            && Cells(KidsUnder(f, p)) <= Cells(f)
  {
    PrimaryFacts(s, f, first, stop, name);
    LookupTop(s, f, name);
  }

  /** After moving the duplicate's contents the survivors' chain lays out the absorbed forest,
      still leading to the duplicate's cell, and means the scan step. */
  lemma DuplicateMoved(s: Store, s1: Store, done: Forest, todo: Forest, first: int, current: int, p: nat)
    requires Laid(s, done, first, current) && Laid(s, todo, current, -1) && Apart(done, todo) && todo.Node?
    requires Lookup(s, done, NameAt(s, todo.record)) == Some(p)
    requires p < |s.dirRecords| && todo.record < |s.dirRecords| && MergeRecords(s, p, todo.record) == Some(s1)
    ensures var g := AbsorbForest(done, p, todo.files, todo.kids);
            && DirSeg(s1, g, first, current)
            && Value(s1, g) == D.Absorb(Value(s, done), NameAt(s, todo.record), FilesAt(s, todo.files),
                                        Value(s, todo.kids))
  {
    var name := NameAt(s, todo.record);
    MoveTouches(s, s1, done, todo, first, current, p);
    AbsorbSeg(s, s1, done, first, current, name, todo.files, todo.kids);
    AbsorbValue(s, done, name, todo.files, todo.kids);
    var g := AbsorbForest(done, p, todo.files, todo.kids);
    TouchesValue(s, s1, g, Cells(KidsUnder(done, p)), {p}, Elements(FilesUnder(done, p)));
  }

  /** The absorbed layout uses the survivors' and the duplicate's parts, each once. */
  lemma AbsorbedFootprint(done: Forest, todo: Forest, p: nat)
    requires Separated(done) && Separated(todo) && Apart(done, todo) && todo.Node? && p in TopRecords(done)
    ensures var g := AbsorbForest(done, p, todo.files, todo.kids);
            && Separated(g)
            && Cells(g) <= Cells(done) + Cells(Head(todo)) && Records(g) <= Records(done) + Records(Head(todo))
            && FileCells(g) == FileCells(done) + FileCells(Head(todo))
            && Size(g) < Size(done) + Size(Head(todo)) && FileTotal(g) == FileTotal(done) + FileTotal(Head(todo))
            && Last(g) == Last(done) && TopRecords(g) == TopRecords(done) && Length(g) == Length(done) && g.Node?
  {
    AbsorbShape(done, p, todo.files, todo.kids);
    AbsorbFootprint(done, p, todo.files, todo.kids);
    AbsorbSeparated(done, p, todo.files, todo.kids);
  }

  /** Moving parts from the unread rest to the survivors keeps the two sides apart and inside
      the original layout. */
  lemma PartsMoved(f: Forest, done: Forest, todo: Forest, g: Forest)
    requires Separated(todo) && todo.Node? && Apart(done, todo) && Inside(done, f) && Inside(todo, f)
    requires FileCells(done) + FileCells(todo) == FileCells(f)
    requires Cells(g) <= Cells(done) + Cells(Head(todo)) && Records(g) <= Records(done) + Records(Head(todo))
    requires FileCells(g) == FileCells(done) + FileCells(Head(todo))
    ensures Apart(g, todo.rest) && Apart(done, todo.rest) && Apart(done, Head(todo)) && Apart(Head(todo), todo.rest)
    ensures Inside(g, f) && Inside(todo.rest, f) && Inside(Head(todo), f)
    ensures FileCells(g) + FileCells(todo.rest) == FileCells(f)
  {
    hide Cells, Records, FileCells, Separated, Head;
    HeadShape(todo);
    SetsMoved(Cells(f), Cells(done), Cells(todo), Cells(Head(todo)), Cells(todo.rest), Cells(g));
    SetsMoved(Records(f), Records(done), Records(todo), Records(Head(todo)), Records(todo.rest), Records(g));
    SetsMoved(FileCells(f), FileCells(done), FileCells(todo), FileCells(Head(todo)), FileCells(todo.rest),
              FileCells(g));
  }

  lemma SetsMoved(f: set<nat>, done: set<nat>, todo: set<nat>, head: set<nat>, rest: set<nat>, g: set<nat>)
    requires todo == head + rest && head !! rest && done !! todo && done <= f && todo <= f && g <= done + head
    ensures g !! rest && done !! rest && done !! head && g <= f && rest <= f && head <= f
    ensures g == done + head && done + todo == f ==> g + rest == f
  {
  }

  /** Cutting the duplicate's cell out of the chain. */
  lemma Unlinked(s: Store, s1: Store, done: Forest, g: Forest, first: int, current: int, next: int)
    requires Touches(s, s1, Cells(done), Records(done), FileCells(done))
    requires DirSeg(s1, g, first, current) && g.Node? && Separated(g)
    requires FilesIn(s, FileCells(g)) && Last(g) in Cells(done)
    ensures 0 <= Last(g) < |s1.dirIndex|
    ensures var s2 := Relink(s1, Last(g), next);
            Laid(s2, g, first, next) && Value(s2, g) == Value(s1, g)
            && Touches(s, s2, Cells(done), Records(done), FileCells(done))
  {
    hide DirSeg, Separated, Value, Cells, Records, FileCells;
    TouchesPresent(s, s1, FileCells(g), Cells(done), Records(done), FileCells(done));
    DirSegRedirect(s1, g, first, current, next);
    var s2 := Relink(s1, Last(g), next);
    assert Touches(s1, s2, {Last(g)}, {}, {});
    TouchesPresent(s1, s2, FileCells(g), {Last(g)}, {}, {});
    TouchesValue(s1, s2, g, {Last(g)}, {}, {});
  }

  /** A duplicate: its contents move to the primary and its cell is unlinked. */
  lemma ScanDuplicate(s0: Store, s: Store, s1: Store, f: Forest, done: Forest, todo: Forest, first: int, current: int,
                      p: nat)
    requires Scanning(s0, s, f, done, todo, first, current) && todo.Node?
    requires Lookup(s, done, NameAt(s, todo.record)) == Some(p)
    requires p < |s.dirRecords| && todo.record < |s.dirRecords| && MergeRecords(s, p, todo.record) == Some(s1)
    ensures done.Node? && 0 <= Last(done) < |s1.dirIndex| && 0 <= current < |s.dirIndex|
    ensures var next := s.dirIndex[current].next;
            var g := AbsorbForest(done, p, todo.files, todo.kids);
            Last(g) == Last(done) && TopRecords(g) == TopRecords(done) && Length(g) == Length(done)
            && Scanning(s0, Relink(s1, Last(done), next), f, g, todo.rest, first, next)
  {
    hide DirSeg, Separated, Cells, Records, FileCells, Touches, AbsorbForest, Lookup, MergeRecords, Size, FileTotal,
         Value, D.Scan;
    HeadLaid(s, todo, current, -1);
    HeadSizes(todo);
    var next := s.dirIndex[current].next;
    var g := AbsorbForest(done, p, todo.files, todo.kids);
    PrimaryFacts'(s, done, first, current, NameAt(s, todo.record));
    AbsorbedFootprint(done, todo, p);
    PartsMoved(f, done, todo, g);
    DuplicateMoved(s, s1, done, todo, first, current, p);
    MoveTouches(s, s1, done, todo, first, current, p);
    hide Apart, Inside;
    LastIn(done);
    Unlinked(s, s1, done, g, first, current, next);
    var s2 := Relink(s1, Last(done), next);
    UntouchedRest(s, s2, done, todo.rest, next);
    TouchesWiden(s0, s, s2, done, f);
    ScanAbsorbs(s, done, todo);
  }

  lemma ScanAbsorbs(s: Store, done: Forest, todo: Forest)
    requires todo.Node?
    ensures D.Scan(Value(s, done), Value(s, todo)) ==
            D.Scan(D.Absorb(Value(s, done), NameAt(s, todo.record), FilesAt(s, todo.files), Value(s, todo.kids)),
                   Value(s, todo.rest))
  {
    assert Value(s, todo) == D.Dir(NameAt(s, todo.record), FilesAt(s, todo.files), Value(s, todo.kids),
                                   Value(s, todo.rest));
  }

  lemma UntouchedRest(s: Store, s2: Store, done: Forest, rest: Forest, first: int)
    requires Laid(s, rest, first, -1) && Apart(done, rest)
    requires Touches(s, s2, Cells(done), Records(done), FileCells(done))
    ensures Laid(s2, rest, first, -1) && Value(s2, rest) == Value(s, rest)
  {
    TouchesAgree(s, s2, rest, Cells(done), Records(done), FileCells(done));
    FrameDirs(s, s2, rest, first, -1);
  }

  lemma TouchesWiden(s0: Store, s: Store, s2: Store, done: Forest, f: Forest)
    requires Touches(s0, s, Cells(f), Records(f), FileCells(f)) && Inside(done, f)
    requires Touches(s, s2, Cells(done), Records(done), FileCells(done))
    ensures Touches(s0, s2, Cells(f), Records(f), FileCells(f))
  {
  }

  /** The scan's local variables between two iterations. */
  datatype ScanVars = ScanVars(
    first: int, last: int, count: int, current: int, previous: int,
    primaries: seq<nat>, primaryByName: map<string, nat>)

  ghost predicate ScanState(s0: Store, s: Store, f: Forest, survivors: Forest, todo: Forest, v: ScanVars) {
    && Scanning(s0, s, f, survivors, todo, v.first, v.current)
    && v.previous == Last(survivors) && v.count == Length(survivors) + Length(todo)
    && v.last == (if todo.Nil? then Last(survivors) else Last(todo))
    && v.primaries == TopRecords(survivors)
    && Named(s, survivors, v.primaryByName)
  }

  /** The map knows exactly the survivors' names, each with its directory's record. */
  ghost predicate Named(s: Store, survivors: Forest, primaryByName: map<string, nat>) {
    forall n :: if n in primaryByName then Lookup(s, survivors, n) == Some(primaryByName[n])
                else Lookup(s, survivors, n).None?
  }

  lemma ScanStateStart(s: Store, f: Forest, chain: IndexChain)
    requires ChainOfDirs(s, chain, f) && Separated(f) && FilesPresent(s, f)
    ensures ScanState(s, s, f, Nil, f, ScanVars(chain.first, chain.last, chain.count, chain.first, -1, [], map[]))
  {
    hide Scanning;
    ScanningStart(s, f, chain.first);
  }

  lemma ScanningStart(s: Store, f: Forest, first: int)
    requires Laid(s, f, first, -1)
    ensures Scanning(s, s, f, Nil, f, first, first)
  {
    hide Touches;
    UntouchedSame(s, Cells(f), Records(f), FileCells(f));
  }

  lemma UntouchedSame(s: Store, cells: set<nat>, records: set<nat>, files: set<nat>)
    ensures Touches(s, s, cells, records, files)
  {
  }

  function NewVars(v: ScanVars, next: int, child: nat, name: string): ScanVars {
    v.(current := next, previous := v.current, primaries := v.primaries + [child],
       primaryByName := v.primaryByName[name := child])
  }

  lemma ScanStateNew(s0: Store, s: Store, f: Forest, survivors: Forest, todo: Forest, v: ScanVars)
    requires ScanState(s0, s, f, survivors, todo, v) && todo.Node? && NameAt(s, todo.record) !in v.primaryByName
    ensures 0 <= v.current < |s.dirIndex|
    ensures ScanState(s0, s, f, Concat(survivors, Head(todo)), todo.rest,
                      NewVars(v, s.dirIndex[v.current].next, todo.record, NameAt(s, todo.record)))
  {
    hide Scanning, Cells, Records, FileCells, Separated, DirSeg, Size, FileTotal;
    var name := NameAt(s, todo.record);
    ScanNew(s0, s, f, survivors, todo, v.first, v.current);
    ConcatShape(survivors, Head(todo));
    CurrentCell(s0, s, f, survivors, todo, v.first, v.current);
    forall n ensures Lookup(s, Concat(survivors, Head(todo)), n) ==
                     if Lookup(s, survivors, n).Some? then Lookup(s, survivors, n)
                     else if n == name then Some(todo.record) else None
    {
      LookupConcat(s, survivors, Head(todo), n);
    }
  }

  lemma CurrentCell(s0: Store, s: Store, f: Forest, survivors: Forest, todo: Forest, first: int, current: int)
    requires Scanning(s0, s, f, survivors, todo, first, current) && todo.Node?
    ensures current == todo.cell < |s.dirIndex| && s.dirIndex[current].record == todo.record < |s.dirRecords|
  {
  }

  function DuplicateVars(v: ScanVars, next: int): ScanVars {
    v.(current := next, count := v.count - 1, last := if v.current == v.last then v.previous else v.last)
  }

  lemma ScanStateDuplicate(s0: Store, s: Store, s1: Store, f: Forest, survivors: Forest, todo: Forest, v: ScanVars)
    requires ScanState(s0, s, f, survivors, todo, v) && todo.Node? && NameAt(s, todo.record) in v.primaryByName
    requires var p := v.primaryByName[NameAt(s, todo.record)];
             p < |s.dirRecords| && todo.record < |s.dirRecords| && MergeRecords(s, p, todo.record) == Some(s1)
    ensures 0 <= v.previous < |s1.dirIndex| && 0 <= v.current < |s.dirIndex|
    ensures var next := s.dirIndex[v.current].next;
            ScanState(s0, Relink(s1, v.previous, next), f,
                      AbsorbForest(survivors, v.primaryByName[NameAt(s, todo.record)], todo.files, todo.kids),
                      todo.rest, DuplicateVars(v, next))
  {
    hide Scanning, Cells, Records, FileCells, Separated, DirSeg, Size, FileTotal, MergeRecords;
    var name := NameAt(s, todo.record);
    var p := v.primaryByName[name];
    assert Lookup(s, survivors, name) == Some(p);
    ScanDuplicate(s0, s, s1, f, survivors, todo, v.first, v.current, p);
    CurrentCell(s0, s, f, survivors, todo, v.first, v.current);
    var s2 := Relink(s1, v.previous, s.dirIndex[v.current].next);
    LastDistinct(s0, s, f, survivors, todo, v.first, v.current);
    NamedKept(s0, s, s1, s2, f, survivors, todo, v, p);
  }

  /** A duplicate and the directory recorded for its name have readable, disjoint chains. */
  lemma DuplicateReadable(s0: Store, s: Store, f: Forest, survivors: Forest, todo: Forest, v: ScanVars)
    requires ScanState(s0, s, f, survivors, todo, v) && todo.Node? && NameAt(s, todo.record) in v.primaryByName
    ensures var p := v.primaryByName[NameAt(s, todo.record)];
            p < |s.dirRecords| && todo.record < |s.dirRecords| && MergeRecords(s, p, todo.record).Some?
  {
    hide MergeRecords;
    var name := NameAt(s, todo.record);
    var p := v.primaryByName[name];
    assert Lookup(s, survivors, name) == Some(p);
    DuplicateMergeable(s, survivors, todo, v.first, v.current, name);
    MergeRecordsHolds(s, p, todo.record, FilesUnder(survivors, p), KidsUnder(survivors, p), todo.files, todo.kids);
  }

  /** After as many cells as the chain counts, the scan stands at the chain's end: the check
      for a chain of the wrong length cannot fire. */
  lemma ScanEnd(s0: Store, s: Store, f: Forest, survivors: Forest, todo: Forest, first: int, current: int)
    requires Scanning(s0, s, f, survivors, todo, first, current) && Length(todo) == 0
    ensures todo == Nil && current == -1
  {
  }

  /** The current cell is the chain's last one exactly when nothing follows it. */
  lemma LastDistinct(s0: Store, s: Store, f: Forest, survivors: Forest, todo: Forest, first: int, current: int)
    requires Scanning(s0, s, f, survivors, todo, first, current) && todo.Node?
    ensures current == Last(todo) <==> todo.rest.Nil?
  {
    if todo.rest.Node? {
      LastIn(todo.rest);
    }
  }

  lemma NamedKept(s0: Store, s: Store, s1: Store, s2: Store, f: Forest, survivors: Forest, todo: Forest, v: ScanVars,
                  p: nat)
    requires Scanning(s0, s, f, survivors, todo, v.first, v.current) && todo.Node?
    requires Lookup(s, survivors, NameAt(s, todo.record)) == Some(p) && Named(s, survivors, v.primaryByName)
    requires p < |s.dirRecords| && todo.record < |s.dirRecords| && MergeRecords(s, p, todo.record) == Some(s1)
    requires exists cell, next :: s2 == Relink(s1, cell, next)
    ensures Named(s2, AbsorbForest(survivors, p, todo.files, todo.kids), v.primaryByName)
  {
    hide DirSeg, Separated, Size, FileTotal, MergeRecords, Relink;
    MoveTouches(s, s1, survivors, todo, v.first, v.current, p);
    var tc, tr, tf := Cells(survivors), Records(survivors), FileCells(survivors);
    var cell, next :| s2 == Relink(s1, cell, next);
    RelinkTouches(s1, cell, next);
    forall n ensures Lookup(s2, AbsorbForest(survivors, p, todo.files, todo.kids), n) == Lookup(s, survivors, n) {
      LookupAbsorb(s2, survivors, n, p, todo.files, todo.kids);
      LookupSame(s, s1, survivors, n, tc, tr, tf);
      LookupSame(s1, s2, survivors, n, {Max(cell, 0)}, {}, {});
    }
  }

  lemma RelinkTouches(s: Store, cell: int, next: int)
    ensures Touches(s, Relink(s, cell, next), {Max(cell, 0)}, {}, {})
  {
  }

  // ----- second pass: every survivor's own subdirectories

  function First(f: Forest): int { if f.Nil? then -1 else f.cell }

  /** A directory ready to be normalised: its header holds `fs` and `k`, which share nothing. */
  ghost predicate Ready(s: Store, r: nat, fs: seq<nat>, k: Forest) {
    && r < |s.dirRecords| && Holds(s, s.dirRecords[r], fs, k)
    && Distinct(fs) && Elements(fs) !! FileCells(k) && r !in Records(k)
    && Separated(k) && FilesIn(s, Elements(fs)) && FilesPresent(s, k)
  }

  /** What normalising one directory achieves; `k'` is where its subdirectories now lie. */
  ghost predicate Settled(s: Store, s': Store, r: nat, fs: seq<nat>, k: Forest, k': Forest, uid: int, uid': int) {
    && Ready(s', r, fs, k') && Inside(k', k) && FileCells(k') == FileCells(k) && FileTotal(k') == FileTotal(k)
    && Touches(s, s', Cells(k), {r} + Records(k), FileCells(k))
    && Value(s', k') == D.Normalize(Value(s, k))
    && s'.dirRecords[r].uid == uid && uid < uid' && DirUids(s', k') == Range(uid + 1, uid')
    && s'.dirRecords[r].totalFiles == |fs| + FileTotal(k') && s'.dirRecords[r].totalDirs == Size(k')
    && TotalsTrue(s', k')
  }

  /** What normalising one chain achieves; `g` is where the merged siblings now lie. */
  ghost predicate Normalized(s: Store, s': Store, f: Forest, g: Forest, first: int, uid: int, uid': int) {
    && Laid(s', g, first, -1) && Inside(g, f) && FileCells(g) == FileCells(f) && FileTotal(g) == FileTotal(f)
    && Touches(s, s', Cells(f), Records(f), FileCells(f))
    && Value(s', g) == D.Normalize(Value(s, f))
    && uid <= uid' && DirUids(s', g) == Range(uid, uid')
    && TotalsTrue(s', g)
  }

  /** Between two directories of the second pass: `done` settled, `todo` still to do. */
  ghost predicate Settling(s0: Store, s: Store, f: Forest, done: Forest, todo: Forest, first: int, uid0: int, uid: int)
  {
    && Laid(s, done, first, First(todo)) && Laid(s, todo, First(todo), -1) && Apart(done, todo)
    && Inside(done, f) && Inside(todo, f) && FileCells(done) + FileCells(todo) == FileCells(f)
    && Size(todo) <= Size(f) && FileTotal(done) + FileTotal(todo) == FileTotal(f)
    && Touches(s0, s, Cells(f), Records(f), FileCells(f))
    && D.Append(Value(s, done), D.NormalizeKids(Value(s, todo))) == D.Normalize(Value(s0, f))
    && uid0 <= uid && DirUids(s, done) == Range(uid0, uid)
    && TotalsTrue(s, done)
  }

  lemma DirSegFirst(s: Store, f: Forest, first: int)
    requires DirSeg(s, f, first, -1)
    ensures first == First(f)
  {
  }

  lemma SettlingStart(s0: Store, s: Store, f: Forest, done: Forest, first: int, uid: int)
    requires Scanning(s0, s, f, done, Nil, first, -1)
    ensures Settling(s0, s, f, Nil, done, first, uid, uid)
  {
    D.ScanNormalizes(Value(s0, f));
    DirSegFirst(s, done, first);
    assert Value(s, Nil) == D.Nil;
  }

  lemma SettlingEnd(s0: Store, s: Store, f: Forest, done: Forest, first: int, uid0: int, uid: int)
    requires Settling(s0, s, f, done, Nil, first, uid0, uid)
    ensures Normalized(s0, s, f, done, first, uid0, uid)
  {
    D.AppendNil(Value(s, done));
    assert Value(s, Nil) == D.Nil;
  }

  lemma HeadReady(s: Store, f: Forest, first: int, stop: int)
    requires Laid(s, f, first, stop) && f.Node?
    ensures Ready(s, f.record, f.files, f.kids)
    ensures Cells(f.kids) <= Cells(Head(f)) && {f.record} + Records(f.kids) <= Records(Head(f))
    ensures FileCells(f.kids) <= FileCells(Head(f))
    ensures Size(f.kids) < Size(f)
  {
  }

  /** The settled directory, in its place in the chain. */
  lemma SettledHead(s: Store, s': Store, todo: Forest, stop: int, k': Forest, uid: int, uid': int)
    requires Laid(s, todo, First(todo), stop) && todo.Node?
    requires Settled(s, s', todo.record, todo.files, todo.kids, k', uid, uid')
    ensures 0 <= todo.cell < |s.dirIndex|
    ensures var one := Node(todo.cell, todo.record, todo.files, k', Nil);
            && Laid(s', one, todo.cell, s.dirIndex[todo.cell].next)
            && Inside(one, Head(todo)) && FileCells(one) == FileCells(Head(todo))
            && FileTotal(one) == FileTotal(Head(todo))
            && Value(s', one) == D.NormalizeKids(Value(s, Head(todo)))
            && DirUids(s', one) == Range(uid, uid') && TotalsTrue(s', one)
    ensures Touches(s, s', Cells(Head(todo)), Records(Head(todo)), FileCells(Head(todo)))
  {
    var one := Node(todo.cell, todo.record, todo.files, k', Nil);
    HeadLaid(s, todo, First(todo), stop);
    SettledFootprint(todo, k');
    SettledValue(s, s', todo, k', uid, uid');
    assert s'.dirIndex[todo.cell] == s.dirIndex[todo.cell];
    hide Value, DirUids, TotalsTrue, D.Normalize, D.NormalizeKids, Touches;
    assert FileCells(one) == Elements(todo.files) + FileCells(k') && FilesPresent(s', one);
    assert DirSeg(s', Nil, s.dirIndex[todo.cell].next, s.dirIndex[todo.cell].next);
    assert DirSeg(s', one, todo.cell, s.dirIndex[todo.cell].next);
  }

  lemma SettledFootprint(todo: Forest, k': Forest)
    requires todo.Node? && Inside(k', todo.kids) && FileCells(k') == FileCells(todo.kids)
             && FileTotal(k') == FileTotal(todo.kids)
    requires Separated(todo) && Separated(k')
    ensures var one := Node(todo.cell, todo.record, todo.files, k', Nil);
            Inside(one, Head(todo)) && FileCells(one) == FileCells(Head(todo))
            && FileTotal(one) == FileTotal(Head(todo))
            && Separated(one)
  {
  }

  lemma SettledValue(s: Store, s': Store, todo: Forest, k': Forest, uid: int, uid': int)
    requires todo.Node? && Settled(s, s', todo.record, todo.files, todo.kids, k', uid, uid')
    ensures var one := Node(todo.cell, todo.record, todo.files, k', Nil);
            && Value(s', one) == D.NormalizeKids(Value(s, Head(todo)))
            && DirUids(s', one) == Range(uid, uid') && TotalsTrue(s', one)
    ensures Touches(s, s', Cells(Head(todo)), Records(Head(todo)), FileCells(Head(todo)))
  {
    hide DirSeg, Separated;
    TouchesFiles(s, s', todo.files, Cells(todo.kids), {todo.record} + Records(todo.kids), FileCells(todo.kids));
    var one := Node(todo.cell, todo.record, todo.files, k', Nil);
    assert DirUids(s', one) == [uid] + Range(uid + 1, uid') + [];
  }

  lemma FrameLaid(s: Store, s': Store, f: Forest, first: int, stop: int, touched: Forest)
    requires Laid(s, f, first, stop) && Apart(f, touched)
    requires Touches(s, s', Cells(touched), Records(touched), FileCells(touched))
    ensures Laid(s', f, first, stop) && Value(s', f) == Value(s, f) && DirUids(s', f) == DirUids(s, f)
    ensures TotalsTrue(s, f) ==> TotalsTrue(s', f)
  {
    TouchesAgree(s, s', f, Cells(touched), Records(touched), FileCells(touched));
    FrameDirs(s, s', f, first, stop);
  }

  lemma LaidFirst(s: Store, f: Forest, first: int)
    requires Laid(s, f, first, -1)
    ensures first == First(f)
  {
  }

  /** The shapes involved when one more directory is settled. */
  lemma SettlingShape(f: Forest, done: Forest, todo: Forest, one: Forest)
    requires Separated(todo) && todo.Node? && Apart(done, todo)
    requires Inside(done, f) && Inside(todo, f) && FileCells(done) + FileCells(todo) == FileCells(f)
    requires Size(todo) <= Size(f) && FileTotal(done) + FileTotal(todo) == FileTotal(f)
    requires Inside(one, Head(todo)) && FileCells(one) == FileCells(Head(todo))
             && FileTotal(one) == FileTotal(Head(todo))
    ensures var done' := Concat(done, one);
            && Apart(done, Head(todo)) && Apart(done, one) && Apart(todo.rest, Head(todo)) && Inside(Head(todo), f)
            && Apart(done', todo.rest)
            && Inside(done', f) && Inside(todo.rest, f) && FileCells(done') + FileCells(todo.rest) == FileCells(f)
            && Size(todo.rest) <= Size(f) && FileTotal(done') + FileTotal(todo.rest) == FileTotal(f)
  {
    hide Cells, Records, FileCells, Size, FileTotal, Separated, Concat, Head;
    ConcatFootprint(done, one);
    ConcatShape(done, one);
    HeadSizes(todo);
    PartsMoved(f, done, todo, Concat(done, one));
  }

  lemma HeadSizes(f: Forest)
    requires f.Node?
    ensures Size(f) == Size(Head(f)) + Size(f.rest) && FileTotal(f) == FileTotal(Head(f)) + FileTotal(f.rest)
  {
  }

  lemma SettlingStep(
    s0: Store, s: Store, s': Store, f: Forest, done: Forest, todo: Forest, first: int,
    k': Forest, uid0: int, uid: int, uid': int)
    requires Settling(s0, s, f, done, todo, first, uid0, uid) && todo.Node?
    requires Settled(s, s', todo.record, todo.files, todo.kids, k', uid, uid')
    ensures Settling(s0, s', f, Concat(done, Node(todo.cell, todo.record, todo.files, k', Nil)), todo.rest, first, uid0,
                     uid')
  {
    hide DirSeg, Separated, Cells, Records, FileCells, Touches, Size, FileTotal, TotalsTrue, DirUids, Range,
         D.Normalize, D.NormalizeKids, D.Append;
    hide Concat, Inside, Apart, Value;
    var one := Node(todo.cell, todo.record, todo.files, k', Nil);
    var head := Head(todo);
    HeadLaid(s, todo, First(todo), -1);
    var next := s.dirIndex[todo.cell].next;
    LaidFirst(s, todo.rest, next);
    assert Separated(todo);
    SettledHead(s, s', todo, -1, k', uid, uid');
    SettlingShape(f, done, todo, one);
    hide Settled, Laid;
    FrameLaid(s, s', done, first, First(todo), head);
    FrameLaid(s, s', todo.rest, next, -1, head);
    LaidConcat(s', done, first, todo.cell, one, next);
    ConcatValue(s', done, one);
    ConcatTotals(s', done, one);
    TouchesWiden(s0, s, s', head, f);
    RangeSplit(uid0, uid, uid');
    HeadValue(s, todo);
    SettlingValue(Value(s, done), Value(s, todo));
  }

  /** Shape bookkeeping of one settled directory. */
  lemma SettledShape(done: Forest, todo: Forest, k': Forest)
    requires todo.Node?
    ensures var done' := Concat(done, Node(todo.cell, todo.record, todo.files, k', Nil));
            && Length(done') + Length(todo.rest) == Length(done) + Length(todo)
            && (if todo.rest.Nil? then Last(done') else Last(todo.rest)) == Last(todo)
    ensures TopRecords(todo) == [todo.record] + TopRecords(todo.rest)
  {
    ConcatShape(done, Node(todo.cell, todo.record, todo.files, k', Nil));
  }

  lemma SettlingHead(s0: Store, s: Store, f: Forest, done: Forest, todo: Forest, first: int, uid0: int, uid: int)
    requires Settling(s0, s, f, done, todo, first, uid0, uid) && todo.Node?
    ensures Ready(s, todo.record, todo.files, todo.kids) && Size(todo.kids) < Size(f)
  {
    HeadReady(s, todo, First(todo), -1);
  }

  /** The second pass leaves the chain with the length and the end the scan gave it. */
  lemma ChainKept(s0: Store, s: Store, f: Forest, g: Forest, result: IndexChain, uid0: int, uid: int)
    requires Settling(s0, s, f, g, Nil, result.first, uid0, uid)
    requires result.count == Length(g) && result.last == Last(g)
    ensures ChainOfDirs(s, result, g) && Normalized(s0, s, f, g, result.first, uid0, uid)
  {
    SettlingEnd(s0, s, f, g, result.first, uid0, uid);
  }

  lemma HeadValue(s: Store, f: Forest)
    requires f.Node?
    ensures Value(s, f).Dir? && Value(s, f).rest == Value(s, f.rest)
    ensures Value(s, Head(f)) == D.Dir(Value(s, f).name, Value(s, f).files, Value(s, f).kids, D.Nil)
  {
  }

  /** Settling the first remaining directory moves it from one side of the result to the other. */
  lemma SettlingValue(done: D.Dirs<Record>, todo: D.Dirs<Record>)
    requires todo.Dir?
    ensures D.Append(D.Append(done, D.NormalizeKids(D.Dir(todo.name, todo.files, todo.kids, D.Nil))),
                     D.NormalizeKids(todo.rest)) ==
            D.Append(done, D.NormalizeKids(todo))
  {
    D.AppendAssoc(done, D.NormalizeKids(D.Dir(todo.name, todo.files, todo.kids, D.Nil)), D.NormalizeKids(todo.rest));
  }

  /** Giving a directory its UID disturbs nothing else. */
  lemma UidWritten(s: Store, s1: Store, r: nat, fs: seq<nat>, k: Forest, uid: int)
    requires Ready(s, r, fs, k)
    requires s1 == s.(dirRecords := s.dirRecords[r := s.dirRecords[r].(uid := uid)])
    ensures Ready(s1, r, fs, k) && Value(s1, k) == Value(s, k) && Touches(s, s1, {}, {r}, {})
    ensures Laid(s1, k, s.dirRecords[r].dirFirst, -1)
  {
    assert Touches(s, s1, {}, {r}, {});
    TouchesAgree(s, s1, k, {}, {r}, {});
    FrameHolds(s, s1, s.dirRecords[r], fs, k);
  }

  /** The directory's own file chain survives the work on its subdirectories. */
  lemma FilesSurvive(s1: Store, s2: Store, r: nat, fs: seq<nat>, k: Forest)
    requires Ready(s1, r, fs, k) && Touches(s1, s2, Cells(k), Records(k), FileCells(k))
    ensures FileSeg(s2.fileIndex, s1.dirRecords[r].fileFirst, fs, -1) && FilesIn(s2, Elements(fs))
    ensures r < |s2.dirRecords| && s2.dirRecords[r] == s1.dirRecords[r]
  {
    hide DirSeg, Separated;
    TouchesPresent(s1, s2, Elements(fs), Cells(k), Records(k), FileCells(k));
    assert forall i :: i in fs ==> i in Elements(fs);
    FrameFiles(s1, s2, s1.dirRecords[r].fileFirst, fs, -1);
  }

  /** The header written last gives the directory its new chains and totals. */
  lemma HeaderWritten(
    s: Store, s1: Store, s2: Store, r: nat, fs: seq<nat>, k: Forest, k': Forest, first: int, uid: int, uid': int,
      h: DirRecord)
    requires Ready(s, r, fs, k)
    requires s1 == s.(dirRecords := s.dirRecords[r := s.dirRecords[r].(uid := uid)])
    requires Normalized(s1, s2, k, k', first, uid + 1, uid') && uid < uid'
    requires r < |s2.dirRecords| && h.name == s2.dirRecords[r].name && h.uid == s2.dirRecords[r].uid
    requires h.fileFirst == s.dirRecords[r].fileFirst && h.fileCount == |fs|
    requires h.dirFirst == first && h.dirCount == Length(k')
    requires h.totalFiles == |fs| + FileTotal(k') && h.totalDirs == Size(k')
    ensures Settled(s, s2.(dirRecords := s2.dirRecords[r := h]), r, fs, k, k', uid, uid')
  {
    hide DirSeg, Separated, Cells, Records, FileCells, Size, FileTotal, Range, D.Normalize, TotalsTrue, DirUids, Value;
    var s3 := s2.(dirRecords := s2.dirRecords[r := h]);
    UidWritten(s, s1, r, fs, k, uid);
    FilesSurvive(s1, s2, r, fs, k);
    HeaderFrame(s2, s3, r, k', first, h);
    TouchesCompose(s, s1, s2, s3, r, k);
  }

  lemma HeaderFrame(s2: Store, s3: Store, r: nat, k': Forest, first: int, h: DirRecord)
    requires r < |s2.dirRecords| && h.name == s2.dirRecords[r].name && r !in Records(k')
    requires s3 == s2.(dirRecords := s2.dirRecords[r := h]) && Laid(s2, k', first, -1)
    ensures Laid(s3, k', first, -1) && Value(s3, k') == Value(s2, k') && DirUids(s3, k') == DirUids(s2, k')
    ensures TotalsTrue(s2, k') ==> TotalsTrue(s3, k')
    ensures Touches(s2, s3, {}, {r}, {})
  {
    assert Touches(s2, s3, {}, {r}, {});
    TouchesAgree(s2, s3, k', {}, {r}, {});
    FrameDirs(s2, s3, k', first, -1);
  }

  lemma TouchesCompose(s: Store, s1: Store, s2: Store, s3: Store, r: nat, k: Forest)
    requires Touches(s, s1, {}, {r}, {}) && Touches(s1, s2, Cells(k), Records(k), FileCells(k))
             && Touches(s2, s3, {}, {r}, {})
    ensures Touches(s, s3, Cells(k), {r} + Records(k), FileCells(k))
  {
  }
}
