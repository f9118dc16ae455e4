/** Selection numbers: every file cell and every directory cell of a store has one, and no two have the same. */
module Selections {
  import opened Common
  import opened IndexStore
  import opened ChainSurgery
  import opened MergeProof
  import opened Building

  /** Every number from `first` up to `next` is the selection of exactly one cell, and there are no others. */
  ghost predicate NumberedOnce(s: Store, first: int, next: int) {
    && (forall i :: 0 <= i < |s.fileIndex| ==> first <= s.fileIndex[i].selection < next)
    && (forall d :: 0 <= d < |s.dirIndex| ==> first <= s.dirIndex[d].selection < next)
    && (forall i, j :: 0 <= i < j < |s.fileIndex| ==> s.fileIndex[i].selection != s.fileIndex[j].selection)
    && (forall d, e :: 0 <= d < e < |s.dirIndex| ==> s.dirIndex[d].selection != s.dirIndex[e].selection)
    && (forall i, d :: 0 <= i < |s.fileIndex| && 0 <= d < |s.dirIndex| ==>
       s.fileIndex[i].selection != s.dirIndex[d].selection)
    && (forall n :: first <= n < next ==> Selects(s, n))
  }

  ghost predicate Selects(s: Store, n: int) {
    (exists i :: 0 <= i < |s.fileIndex| && s.fileIndex[i].selection == n)
    || (exists d :: 0 <= d < |s.dirIndex| && s.dirIndex[d].selection == n)
  }

  // ----- the same, counted

  function FileSelections(index: seq<FileCell>): seq<int> {
    seq(|index|, i requires 0 <= i < |index| => index[i].selection)
  }

  function DirSelections(index: seq<DirCell>): seq<int> {
    seq(|index|, d requires 0 <= d < |index| => index[d].selection)
  }

  /** How often a number occurs. */
  ghost function Times(a: seq<int>, n: int): nat { multiset(a)[n] }

  /** How many cells have this selection. */
  ghost function CellsWith(s: Store, n: int): nat {
    Times(FileSelections(s.fileIndex), n) + Times(DirSelections(s.dirIndex), n)
  }

  /** From `s` to `s'` the numbers from `first` up to `next` were given out, each to one cell. */
  ghost predicate GivenOut(s: Store, s': Store, first: int, next: int) {
    first <= next && forall n :: CellsWith(s', n) == CellsWith(s, n) + (if first <= n < next then 1 else 0)
  }

  const NO_CELLS: Store := Store([], [], [], [])

  /** The numbers are those from `first` up to `next`. */
  ghost predicate Given(s: Store, first: int, next: int) { GivenOut(NO_CELLS, s, first, next) }

  lemma Occurs(a: seq<int>, i: nat)
    requires i < |a|
    ensures Times(a, a[i]) >= 1
  {
    assert a[i] in multiset(a);
  }

  lemma OccursTwice(a: seq<int>, i: nat, j: nat)
    requires i < j < |a| && a[i] == a[j]
    ensures Times(a, a[i]) >= 2
  {
    assert a == a[..i] + [a[i]] + a[i + 1..j] + [a[j]] + a[j + 1..];
  }

  lemma OccursInBoth(a: seq<int>, i: nat, b: seq<int>, d: nat)
    requires i < |a| && d < |b| && a[i] == b[d]
    ensures Times(a, a[i]) + Times(b, a[i]) >= 2
  {
    hide Times;
    Occurs(a, i);
    Occurs(b, d);
  }

  lemma Found(a: seq<int>, n: int)
    requires Times(a, n) >= 1
    ensures exists i :: 0 <= i < |a| && a[i] == n
  {
    assert n in multiset(a);
  }

  lemma TimesMore(a: seq<int>, b: seq<int>, n: int)
    ensures Times(a + b, n) == Times(a, n) + Times(b, n)
  {
  }

  lemma TimesOne(x: int, n: int)
    ensures Times([x], n) == if x == n then 1 else 0
  {
  }

  lemma GivenOnce(s: Store, first: int, next: int)
    requires Given(s, first, next)
    ensures NumberedOnce(s, first, next)
  {
    var a, b := FileSelections(s.fileIndex), DirSelections(s.dirIndex);
    assert forall n :: CellsWith(s, n) == if first <= n < next then 1 else 0;
    hide Times, Given;
    forall i | 0 <= i < |a| ensures first <= a[i] < next { Occurs(a, i); assert CellsWith(s, a[i]) >= 1; }
    forall d | 0 <= d < |b| ensures first <= b[d] < next { Occurs(b, d); assert CellsWith(s, b[d]) >= 1; }
    forall i, j | 0 <= i < j < |a| ensures a[i] != a[j] {
      if a[i] == a[j] { assert CellsWith(s, a[i]) <= 1; OccursTwice(a, i, j); }
    }
    forall d, e | 0 <= d < e < |b| ensures b[d] != b[e] {
      if b[d] == b[e] { assert CellsWith(s, b[d]) <= 1; OccursTwice(b, d, e); }
    }
    forall i, d | 0 <= i < |a| && 0 <= d < |b| ensures a[i] != b[d] {
      if a[i] == b[d] { assert CellsWith(s, a[i]) <= 1; OccursInBoth(a, i, b, d); }
    }
    forall n | first <= n < next ensures Selects(s, n) {
      assert CellsWith(s, n) == 1;
      if Times(a, n) >= 1 { Found(a, n); } else { Found(b, n); }
    }
    SameIndexes(s, a, b);
  }

  lemma SameIndexes(s: Store, a: seq<int>, b: seq<int>)
    requires a == FileSelections(s.fileIndex) && b == DirSelections(s.dirIndex)
    ensures |a| == |s.fileIndex| && forall i :: 0 <= i < |a| ==> s.fileIndex[i].selection == a[i]
    ensures |b| == |s.dirIndex| && forall d :: 0 <= d < |b| ==> s.dirIndex[d].selection == b[d]
  {
  }

  // ----- what keeps them

  /** The cells have the selections they had. */
  ghost predicate SameSelections(s: Store, s': Store) {
    FileSelections(s'.fileIndex) == FileSelections(s.fileIndex)
    && DirSelections(s'.dirIndex) == DirSelections(s.dirIndex)
  }

  lemma SameGiven(s0: Store, s: Store, s': Store, first: int, next: int)
    requires GivenOut(s0, s, first, next) && SameSelections(s, s')
    ensures GivenOut(s0, s', first, next)
  {
  }

  lemma NothingGiven(s: Store, first: int)
    ensures GivenOut(s, s, first, first)
  {
  }

  lemma GivenMore(s0: Store, s: Store, s': Store, first: int, mid: int, next: int)
    requires GivenOut(s0, s, first, mid) && GivenOut(s, s', mid, next)
    ensures GivenOut(s0, s', first, next)
  {
    hide CellsWith;
  }

  lemma SameCells(s: Store, s': Store)
    requires s'.fileIndex == s.fileIndex && s'.dirIndex == s.dirIndex
    ensures SameSelections(s, s')
  {
  }

  /** Relinking changes no selection. */
  lemma TouchesSelections(s: Store, s': Store, cells: set<nat>, records: set<nat>, files: set<nat>)
    requires Touches(s, s', cells, records, files)
    ensures SameSelections(s, s')
  {
    forall i | 0 <= i < |s.fileIndex| ensures s'.fileIndex[i].selection == s.fileIndex[i].selection {
      assert s'.fileIndex[i].(next := 0).selection == s.fileIndex[i].(next := 0).selection;
    }
    forall d | 0 <= d < |s.dirIndex| ensures s'.dirIndex[d].selection == s.dirIndex[d].selection {
      assert s'.dirIndex[d].(next := 0).selection == s.dirIndex[d].(next := 0).selection;
    }
    assert FileSelections(s'.fileIndex) == FileSelections(s.fileIndex);
    assert DirSelections(s'.dirIndex) == DirSelections(s.dirIndex);
  }

  lemma NormalizedSelections(s: Store, s': Store, f: Forest, g: Forest, first: int, uid: int, uid': int)
    requires Normalized(s, s', f, g, first, uid, uid')
    ensures SameSelections(s, s')
  {
    TouchesSelections(s, s', Cells(f), Records(f), FileCells(f));
  }

  lemma JoinedSelections(s: Store, s': Store, files: IndexChain, files': IndexChain, dirs: IndexChain,
                         dirs': IndexChain)
    requires s'.fileIndex == JoinFiles(s.fileIndex, files, files').0
    requires s'.dirIndex == JoinDirs(s.dirIndex, dirs, dirs').0
    ensures SameSelections(s, s')
  {
    assert FileSelections(s'.fileIndex) == FileSelections(s.fileIndex);
    assert DirSelections(s'.dirIndex) == DirSelections(s.dirIndex);
  }

  // ----- what gives them out

  /** A new file cell takes the next number. */
  lemma FileNumbered(s0: Store, s: Store, s': Store, files: IndexChain, e: FileCell, first: int)
    requires GivenOut(s0, s, first, e.selection) && files.last < |s.fileIndex|
    requires s'.fileIndex == PushFile(s.fileIndex, files, e) && s'.dirIndex == s.dirIndex
    ensures GivenOut(s0, s', first, e.selection + 1)
  {
    var a := FileSelections(s.fileIndex);
    assert FileSelections(s'.fileIndex) == a + [e.selection];
    hide Times;
    forall n ensures CellsWith(s', n) == CellsWith(s, n) + (if n == e.selection then 1 else 0) {
      TimesMore(a, [e.selection], n);
      TimesOne(e.selection, n);
    }
  }

  /** A new directory cell takes the number that was set aside before what it holds was numbered. */
  lemma DirNumbered(s0: Store, s: Store, s1: Store, s': Store, dirs: IndexChain, e: DirCell, first: int, next: int)
    requires GivenOut(s0, s, first, e.selection) && GivenOut(s, s1, e.selection + 1, next)
    requires dirs.last < |s1.dirIndex|
    requires s'.dirIndex == PushDir(s1.dirIndex, dirs, e) && s'.fileIndex == s1.fileIndex
    ensures GivenOut(s0, s', first, next)
  {
    var a := DirSelections(s1.dirIndex);
    assert DirSelections(s'.dirIndex) == a + [e.selection];
    hide Times;
    forall n ensures CellsWith(s', n) == CellsWith(s1, n) + (if n == e.selection then 1 else 0) {
      TimesMore(a, [e.selection], n);
      TimesOne(e.selection, n);
    }
    hide CellsWith;
  }

  /** The cells of a source are copied with their numbers moved up by `base`. */
  ghost predicate FilesMovedUp(from: seq<FileCell>, to: seq<FileCell>, base: int) {
    |to| == |from| && forall i :: 0 <= i < |to| ==>
      to[i].selection == if from[i].selection == -1 then -1 else from[i].selection + base
  }

  lemma OneMovedUp(from: seq<FileCell>, i: nat, to: seq<FileCell>, base: int, c: FileCell)
    requires i < |from| && FilesMovedUp(from[..i], to, base)
    requires c.selection == if from[i].selection == -1 then -1 else from[i].selection + base
    ensures FilesMovedUp(from[..i + 1], to + [c], base)
  {
  }

  lemma NoneMovedUp(from: seq<FileCell>, base: int)
    ensures FilesMovedUp(from[..0], [], base) && from[..|from|] == from
  {
  }

  ghost predicate DirsMovedUp(from: seq<DirCell>, to: seq<DirCell>, base: int) {
    |to| == |from| && forall d :: 0 <= d < |to| ==>
      to[d].selection == if from[d].selection == -1 then -1 else from[d].selection + base
  }

  lemma {:induction false} TimesLifted(a: seq<int>, b: seq<int>, base: int, n: int)
    requires |a| == |b| && forall i :: 0 <= i < |a| ==> b[i] == a[i] + base
    ensures Times(b, n) == Times(a, n - base)
  {
    hide Times;
    if a != [] {
      TimesLifted(a[1..], b[1..], base, n);
      TimesFirst(a, n - base);
      TimesFirst(b, n);
    } else {
      assert a == b;
      TimesNone(n);
      TimesNone(n - base);
    }
  }

  lemma TimesNone(n: int)
    ensures Times([], n) == 0
  {
  }

  lemma TimesFirst(a: seq<int>, n: int)
    requires a != []
    ensures Times(a, n) == (if a[0] == n then 1 else 0) + Times(a[1..], n)
  {
    assert a == [a[0]] + a[1..];
    TimesMore([a[0]], a[1..], n);
    TimesOne(a[0], n);
  }

  /** A source whose numbers are those up to `count` brings the next `count` numbers. */
  lemma SourceNumbered(src: Store, s: Store, s': Store, files: seq<FileCell>, cells: seq<DirCell>, base: int,
                       count: int)
    requires Given(src, 0, count)
    requires FilesMovedUp(src.fileIndex, files, base) && DirsMovedUp(src.dirIndex, cells, base)
    requires s'.fileIndex == s.fileIndex + files && s'.dirIndex == s.dirIndex + cells
    ensures GivenOut(s, s', base, base + count)
  {
    GivenOnce(src, 0, count);
    var a, b, c, d := FileSelections(src.fileIndex), DirSelections(src.dirIndex), FileSelections(files),
      DirSelections(cells);
    var a', b' := FileSelections(s.fileIndex), DirSelections(s.dirIndex);
    assert FileSelections(s'.fileIndex) == a' + c;
    assert DirSelections(s'.dirIndex) == b' + d;
    assert forall i :: 0 <= i < |a| ==> c[i] == a[i] + base;
    assert forall i :: 0 <= i < |b| ==> d[i] == b[i] + base;
    hide Times, NumberedOnce;
    forall n ensures CellsWith(s', n) == CellsWith(s, n) + (if base <= n < base + count then 1 else 0) {
      TimesMore(a', c, n);
      TimesMore(b', d, n);
      TimesLifted(a, c, base, n);
      TimesLifted(b, d, base, n);
      assert CellsWith(src, n - base) == (if 0 <= n - base < count then 1 else 0);
    }
  }
}
