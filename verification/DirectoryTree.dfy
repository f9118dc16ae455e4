/** The meaning of an LTFS index: a forest of named directories, and the merge
    of same-named sibling directories that a multi-volume schema asks for.

    A forest is kept in first-child / next-sibling form, so that one recursion
    covers both "deeper" and "further along the sibling list". */
module DirectoryTree {

  datatype Dirs<F> = Nil | Dir(name: string, files: seq<F>, kids: Dirs<F>, rest: Dirs<F>)

  /** Number of directories in the forest. */
  function Size<F>(d: Dirs<F>): nat {
    match d
    case Nil => 0
    case Dir(_, _, k, t) => 1 + Size(k) + Size(t)
  }

  /** Number of files in the forest. */
  function FileTotal<F>(d: Dirs<F>): nat {
    match d
    case Nil => 0
    case Dir(_, fs, k, t) => |fs| + FileTotal(k) + FileTotal(t)
  }

  function Append<F>(a: Dirs<F>, b: Dirs<F>): Dirs<F> {
    match a
    case Nil => b
    case Dir(n, fs, k, t) => Dir(n, fs, k, Append(t, b))
  }

  /** Sibling names in order. */
  function Names<F>(d: Dirs<F>): seq<string> {
    match d
    case Nil => []
    case Dir(n, _, _, t) => [n] + Names(t)
  }

  /** Files of every sibling called `n`, in encounter order. */
  function FilesOf<F>(n: string, d: Dirs<F>): seq<F> {
    match d
    case Nil => []
    case Dir(m, fs, _, t) => (if m == n then fs else []) + FilesOf(n, t)
  }

  /** Subdirectories of every sibling called `n`, in encounter order. */
  function KidsOf<F>(n: string, d: Dirs<F>): Dirs<F> {
    match d
    case Nil => Nil
    case Dir(m, _, k, t) => if m == n then Append(k, KidsOf(n, t)) else KidsOf(n, t)
  }

  /** The siblings that are not called `n`. */
  function Without<F>(n: string, d: Dirs<F>): Dirs<F> {
    match d
    case Nil => Nil
    case Dir(m, fs, k, t) => if m == n then Without(n, t) else Dir(m, fs, k, Without(n, t))
  }

  lemma AppendSize<F>(a: Dirs<F>, b: Dirs<F>)
    ensures Size(Append(a, b)) == Size(a) + Size(b)
    ensures FileTotal(Append(a, b)) == FileTotal(a) + FileTotal(b)
  {
  }

  lemma {:induction false} SplitSize<F>(n: string, d: Dirs<F>)
    ensures Size(KidsOf(n, d)) + Size(Without(n, d)) <= Size(d)
  {
    match d
    case Nil =>
    case Dir(m, _, k, t) =>
      SplitSize(n, t);
      AppendSize(k, KidsOf(n, t));
  }

  /** The merged forest: siblings grouped by name in first-occurrence order,
      their files concatenated, their subdirectories concatenated and merged again. */
  function Normalize<F>(d: Dirs<F>): Dirs<F>
    decreases Size(d)
  {
    match d
    case Nil => Nil
    case Dir(n, fs, k, t) =>
      SplitSize(n, t);
      AppendSize(k, KidsOf(n, t));
      Dir(n, fs + FilesOf(n, t), Normalize(Append(k, KidsOf(n, t))), Normalize(Without(n, t)))
  }

  /** No two siblings share a name, at any depth. */
  predicate UniqueNames<F>(d: Dirs<F>) {
    match d
    case Nil => true
    case Dir(n, _, k, t) => n !in Names(t) && UniqueNames(k) && UniqueNames(t)
  }

  /** All files found under a non-empty path, searching every directory the path can denote. */
  function FilesAt<F>(path: seq<string>, d: Dirs<F>): seq<F> {
    if path == [] then []
    else if |path| == 1 then FilesOf(path[0], d)
    else FilesAt(path[1..], KidsOf(path[0], d))
  }

  /** All subdirectory names found under a path; the empty path denotes the top level. */
  function NamesAt<F>(path: seq<string>, d: Dirs<F>): seq<string> {
    if path == [] then Names(d) else NamesAt(path[1..], KidsOf(path[0], d))
  }

  /** `s` without the elements that already occurred earlier. */
  function Firsts(s: seq<string>): seq<string>
    decreases |s|
  {
    if s == [] then [] else [s[0]] + Firsts(Minus(s[1..], s[0]))
  }

  function Minus(s: seq<string>, x: string): (r: seq<string>)
    ensures |r| <= |s|
  {
    if s == [] then [] else (if s[0] == x then [] else [s[0]]) + Minus(s[1..], x)
  }

  // ----- structural facts

  lemma {:induction false} WithoutNames<F>(n: string, d: Dirs<F>)
    ensures Names(Without(n, d)) == Minus(Names(d), n)
    ensures n !in Names(Without(n, d))
    ensures forall m :: m in Names(Without(n, d)) <==> m != n && m in Names(d)
  {
    match d
    case Nil =>
    case Dir(m, _, _, t) =>
      WithoutNames(n, t);
      assert Names(d)[1..] == Names(t);
  }

  lemma {:induction false} WithoutOther<F>(n: string, m: string, d: Dirs<F>)
    requires n != m
    ensures FilesOf(m, Without(n, d)) == FilesOf(m, d)
    ensures KidsOf(m, Without(n, d)) == KidsOf(m, d)
  {
    match d
    case Nil =>
    case Dir(_, _, _, t) => WithoutOther(n, m, t);
  }

  lemma {:induction false} AbsentName<F>(n: string, d: Dirs<F>)
    requires n !in Names(d)
    ensures FilesOf(n, d) == [] && KidsOf(n, d) == Nil && Without(n, d) == d
  {
    match d
    case Nil =>
    case Dir(m, _, _, t) =>
      assert m == Names(d)[0];
      assert forall x :: x in Names(t) ==> x in Names(d);
      AbsentName(n, t);
  }

  lemma AppendNil<F>(a: Dirs<F>)
    ensures Append(a, Nil) == a
  {
  }

  lemma AppendAssoc<F>(a: Dirs<F>, b: Dirs<F>, c: Dirs<F>)
    ensures Append(Append(a, b), c) == Append(a, Append(b, c))
  {
  }

  // ----- what the merge promises

  /** A merged forest has no duplicate sibling at any depth. */
  lemma {:induction false} NormalizeUnique<F>(d: Dirs<F>)
    ensures UniqueNames(Normalize(d))
    ensures forall m :: m in Names(Normalize(d)) <==> m in Names(d)
    decreases Size(d)
  {
    match d
    case Nil =>
    case Dir(n, fs, k, t) =>
      SplitSize(n, t);
      AppendSize(k, KidsOf(n, t));
      NormalizeUnique(Append(k, KidsOf(n, t)));
      NormalizeUnique(Without(n, t));
      WithoutNames(n, t);
  }

  /** Merging a forest without duplicates changes nothing; so merging twice is merging once. */
  lemma {:induction false} NormalizeFixpoint<F>(d: Dirs<F>)
    requires UniqueNames(d)
    ensures Normalize(d) == d
    decreases Size(d)
  {
    match d
    case Nil =>
    case Dir(n, fs, k, t) =>
      AbsentName(n, t);
      AppendNil(k);
      NormalizeFixpoint(k);
      NormalizeFixpoint(t);
  }

  lemma NormalizeIdempotent<F>(d: Dirs<F>)
    ensures Normalize(Normalize(d)) == Normalize(d)
  {
    NormalizeUnique(d);
    NormalizeFixpoint(Normalize(d));
  }

  /** One level: each name keeps exactly its files, and its subdirectories are the merged ones. */
  lemma {:induction false} NormalizeOneName<F>(n: string, d: Dirs<F>)
    ensures FilesOf(n, Normalize(d)) == FilesOf(n, d)
    ensures KidsOf(n, Normalize(d)) == Normalize(KidsOf(n, d))
    decreases Size(d)
  {
    match d
    case Nil =>
    case Dir(m, fs, k, t) =>
      SplitSize(m, t);
      AppendSize(k, KidsOf(m, t));
      var w := Without(m, t);
      if n == m {
        WithoutNames(m, t);
        NormalizeUnique(w);
        AbsentName(m, Normalize(w));
        AppendNil(Normalize(Append(k, KidsOf(m, t))));
      } else {
        NormalizeOneName(n, w);
        WithoutOther(m, n, t);
      }
  }

  /** Every path leads to the same files, in the same order, before and after the merge. */
  lemma {:induction false} NormalizeKeepsFiles<F>(path: seq<string>, d: Dirs<F>)
    ensures FilesAt(path, Normalize(d)) == FilesAt(path, d)
    decreases |path|
  {
    if path != [] {
      NormalizeOneName(path[0], d);
      if |path| > 1 {
        NormalizeKeepsFiles(path[1..], KidsOf(path[0], d));
      }
    }
  }

  lemma {:induction false} NormalizeNames<F>(d: Dirs<F>)
    ensures Names(Normalize(d)) == Firsts(Names(d))
    decreases Size(d)
  {
    match d
    case Nil =>
    case Dir(n, _, _, t) =>
      SplitSize(n, t);
      WithoutNames(n, t);
      NormalizeNames(Without(n, t));
      assert Names(d)[1..] == Names(t);
  }

  /** Under every path the subdirectories are the old ones, each kept at its first occurrence. */
  lemma {:induction false} NormalizeKeepsNames<F>(path: seq<string>, d: Dirs<F>)
    ensures NamesAt(path, Normalize(d)) == Firsts(NamesAt(path, d))
    decreases |path|
  {
    if path == [] {
      NormalizeNames(d);
    } else {
      NormalizeOneName(path[0], d);
      NormalizeKeepsNames(path[1..], KidsOf(path[0], d));
    }
  }

  /** Duplicate-free forests are determined by what each path leads to, so the four facts
      above pin the merge down completely. */
  lemma {:induction false} PathsDetermine<F(!new)>(a: Dirs<F>, b: Dirs<F>)
    requires UniqueNames(a) && UniqueNames(b)
    requires forall p: seq<string> :: FilesAt(p, a) == FilesAt(p, b)
    requires forall p: seq<string> :: NamesAt(p, a) == NamesAt(p, b)
    ensures a == b
    decreases a
  {
    assert NamesAt([], a) == NamesAt([], b);
    match a {
      case Nil =>
        assert Names(b) == [];
      case Dir(n, fs, k, t) =>
        assert b.Dir? && Names(b)[0] == n == b.name;
        AbsentName(n, t);
        AbsentName(n, b.rest);
        AppendNil(k);
        AppendNil(b.kids);
        assert FilesAt([n], a) == FilesAt([n], b);
        assert FilesAt([n], a) == fs + [] == fs;
        assert FilesAt([n], b) == b.files + [] == b.files;
        forall p: seq<string>
          ensures FilesAt(p, k) == FilesAt(p, b.kids) && NamesAt(p, k) == NamesAt(p, b.kids)
        {
          var q := [n] + p;
          assert q[1..] == p;
          assert FilesAt(q, a) == FilesAt(q, b);
          assert NamesAt(q, a) == NamesAt(q, b);
        }
        PathsDetermine(k, b.kids);
        forall p: seq<string>
          ensures FilesAt(p, t) == FilesAt(p, b.rest) && NamesAt(p, t) == NamesAt(p, b.rest)
        {
          SkipHead(p, a);
          SkipHead(p, b);
          assert FilesAt(p, a) == FilesAt(p, b);
          assert NamesAt(p, a) == NamesAt(p, b);
          if p == [] {
            assert Names(t) == Names(a)[1..] && Names(b.rest) == Names(b)[1..];
          }
        }
        PathsDetermine(t, b.rest);
    }
  }

  /** A path that starts with another name than the first sibling's does not see that sibling. */
  lemma SkipHead<F>(p: seq<string>, d: Dirs<F>)
    requires d.Dir? && d.name !in Names(d.rest)
    ensures p == [] ==> FilesAt(p, d.rest) == [] && NamesAt(p, d) == [d.name] + NamesAt(p, d.rest)
    ensures p != [] && p[0] == d.name ==> FilesAt(p, d.rest) == [] && NamesAt(p, d.rest) == []
    ensures p != [] && p[0] != d.name ==>
      FilesAt(p, d.rest) == FilesAt(p, d) && NamesAt(p, d.rest) == NamesAt(p, d)
  {
    if p != [] && p[0] == d.name {
      AbsentName(d.name, d.rest);
      NilPaths<F>(p[1..]);
    }
  }

  lemma {:induction false} NilPaths<F>(p: seq<string>)
    ensures FilesAt<F>(p, Nil) == [] && NamesAt<F>(p, Nil) == []
  {
    if p != [] {
      NilPaths<F>(p[1..]);
    }
  }

  /** Full paths of all files, with multiplicity. */
  ghost function Entries<F>(at: seq<string>, d: Dirs<F>): multiset<(seq<string>, F)>
    decreases d
  {
    match d
    case Nil => multiset{}
    case Dir(n, fs, k, t) => Tagged(at + [n], fs) + Entries(at + [n], k) + Entries(at, t)
  }

  ghost function Tagged<F>(at: seq<string>, fs: seq<F>): multiset<(seq<string>, F)> {
    if fs == [] then multiset{} else multiset{(at, fs[0])} + Tagged(at, fs[1..])
  }

  lemma {:induction false} TaggedAppend<F>(at: seq<string>, a: seq<F>, b: seq<F>)
    ensures Tagged(at, a + b) == Tagged(at, a) + Tagged(at, b)
  {
    if a == [] {
      assert a + b == b;
    } else {
      assert (a + b)[1..] == a[1..] + b;
      TaggedAppend(at, a[1..], b);
    }
  }

  lemma {:induction false} EntriesAppend<F>(at: seq<string>, a: Dirs<F>, b: Dirs<F>)
    ensures Entries(at, Append(a, b)) == Entries(at, a) + Entries(at, b)
  {
    match a
    case Nil =>
    case Dir(_, _, _, t) => EntriesAppend(at, t, b);
  }

  lemma {:induction false} EntriesSplit<F>(at: seq<string>, n: string, d: Dirs<F>)
    ensures Entries(at, d) ==
            Tagged(at + [n], FilesOf(n, d)) + Entries(at + [n], KidsOf(n, d)) + Entries(at, Without(n, d))
  {
    match d
    case Nil =>
    case Dir(m, fs, k, t) =>
      EntriesSplit(at, n, t);
      if m == n {
        assert Entries(at, d) == Tagged(at + [n], fs) + Entries(at + [n], k) + Entries(at, t);
        assert FilesOf(n, d) == fs + FilesOf(n, t) && KidsOf(n, d) == Append(k, KidsOf(n, t));
        assert Without(n, d) == Without(n, t);
        hide *;
        TaggedAppend(at + [n], fs, FilesOf(n, t));
        EntriesAppend(at + [n], k, KidsOf(n, t));
      } else {
        assert Entries(at, Without(n, d)) == Tagged(at + [m], fs) + Entries(at + [m], k) + Entries(at, Without(n, t));
        assert FilesOf(n, d) == [] + FilesOf(n, t) == FilesOf(n, t) && KidsOf(n, d) == KidsOf(n, t);
      }
  }

  /** The merge neither loses, invents nor moves a file. */
  lemma {:induction false} NormalizeConserves<F>(at: seq<string>, d: Dirs<F>)
    ensures Entries(at, Normalize(d)) == Entries(at, d)
    decreases Size(d)
  {
    match d
    case Nil =>
    case Dir(n, fs, k, t) =>
      SplitSize(n, t);
      AppendSize(k, KidsOf(n, t));
      NormalizeConserves(at + [n], Append(k, KidsOf(n, t)));
      NormalizeConserves(at, Without(n, t));
      EntriesSplit(at, n, t);
      EntriesAppend(at + [n], k, KidsOf(n, t));
      TaggedAppend(at + [n], fs, FilesOf(n, t));
  }

  // ----- the merge does not look at the files

  function MapSeq<F, G>(fs: seq<F>, m: F -> G): (gs: seq<G>)
    ensures |gs| == |fs| && forall i :: 0 <= i < |fs| ==> gs[i] == m(fs[i])
  {
    seq(|fs|, i requires 0 <= i < |fs| => m(fs[i]))
  }

  function MapFiles<F, G>(d: Dirs<F>, m: F -> G): Dirs<G> {
    match d
    case Nil => Nil
    case Dir(n, fs, k, t) => Dir(n, MapSeq(fs, m), MapFiles(k, m), MapFiles(t, m))
  }

  lemma MapSeqAppend<F, G>(a: seq<F>, b: seq<F>, m: F -> G)
    ensures MapSeq(a + b, m) == MapSeq(a, m) + MapSeq(b, m)
  {
  }

  lemma {:induction false} MapAppend<F, G>(a: Dirs<F>, b: Dirs<F>, m: F -> G)
    ensures MapFiles(Append(a, b), m) == Append(MapFiles(a, m), MapFiles(b, m))
  {
    match a case Nil => case Dir(_, _, _, t) => MapAppend(t, b, m);
  }

  lemma {:induction false} MapGroup<F, G>(n: string, d: Dirs<F>, m: F -> G)
    ensures FilesOf(n, MapFiles(d, m)) == MapSeq(FilesOf(n, d), m)
    ensures KidsOf(n, MapFiles(d, m)) == MapFiles(KidsOf(n, d), m)
    ensures Without(n, MapFiles(d, m)) == MapFiles(Without(n, d), m)
  {
    match d
    case Nil =>
    case Dir(x, fs, k, t) =>
      MapGroup(n, t, m);
      MapSeqAppend(fs, FilesOf(n, t), m);
      MapAppend(k, KidsOf(n, t), m);
  }

  lemma {:induction false} MapNormalize<F, G>(d: Dirs<F>, m: F -> G)
    ensures MapFiles(Normalize(d), m) == Normalize(MapFiles(d, m))
    decreases Size(d)
  {
    match d
    case Nil =>
    case Dir(n, fs, k, t) =>
      SplitSize(n, t);
      AppendSize(k, KidsOf(n, t));
      MapGroup(n, t, m);
      MapAppend(k, KidsOf(n, t), m);
      MapSeqAppend(fs, FilesOf(n, t), m);
      MapNormalize(Append(k, KidsOf(n, t)), m);
      MapNormalize(Without(n, t), m);
  }

  // ----- the merge as a left-to-right scan

  /** Add one directory to the survivors: into the survivor of that name, or at the end. */
  function Absorb<F>(done: Dirs<F>, n: string, fs: seq<F>, k: Dirs<F>): Dirs<F> {
    match done
    case Nil => Dir(n, fs, k, Nil)
    case Dir(m, gs, j, t) =>
      if m == n then Dir(m, gs + fs, Append(j, k), t) else Dir(m, gs, j, Absorb(t, n, fs, k))
  }

  function Scan<F>(done: Dirs<F>, todo: Dirs<F>): Dirs<F>
    decreases todo
  {
    match todo
    case Nil => done
    case Dir(n, fs, k, t) => Scan(Absorb(done, n, fs, k), t)
  }

  /** Merge every survivor's own subdirectories. */
  function NormalizeKids<F>(d: Dirs<F>): Dirs<F> {
    match d
    case Nil => Nil
    case Dir(n, fs, k, t) => Dir(n, fs, Normalize(k), NormalizeKids(t))
  }

  lemma {:induction false} ScanHead<F>(done: Dirs<F>, todo: Dirs<F>)
    requires done.Dir?
    ensures Scan(done, todo) ==
            Dir(done.name, done.files + FilesOf(done.name, todo), Append(done.kids, KidsOf(done.name, todo)),
                Scan(done.rest, Without(done.name, todo)))
    decreases todo
  {
    match todo
    case Nil => AppendNil(done.kids);
    case Dir(n, fs, k, t) =>
      ScanHead(Absorb(done, n, fs, k), t);
      if n == done.name {
        AppendAssoc(done.kids, k, KidsOf(n, t));
      }
  }

  /** The in-place algorithm's two passes, scan then recursive merge, compute `Normalize`. */
  lemma {:induction false} ScanNormalizes<F>(d: Dirs<F>)
    ensures NormalizeKids(Scan(Nil, d)) == Normalize(d)
    decreases Size(d)
  {
    match d
    case Nil =>
    case Dir(n, fs, k, t) =>
      var first := Dir(n, fs, k, Nil);
      ScanHead(first, t);
      SplitSize(n, t);
      ScanNormalizes(Without(n, t));
  }
}
