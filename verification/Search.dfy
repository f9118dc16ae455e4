/** Resumable search over a laid-out store: files of a directory before its subdirectories, each
    subdirectory before its contents.  Which names match, and how a file's name is read from its
    record, are parameters. */
module Search {
  import opened Common
  import opened IndexStore

  datatype Kind = FileKind | DirectoryKind

  /** One searched item; `trail` holds the directory names from below the root down to it. */
  datatype Item = Item(kind: Kind, parent: nat, record: int, length: int, fileIndex: int, name: string,
                       trail: seq<string>)

  datatype Key = Key(kind: Kind, record: int)

  datatype Hit = Hit(kind: Kind, parent: nat, record: int, length: int, fileIndex: int, path: string,
                     directoryPath: string)

  function KeyOf(i: Item): Key { Key(i.kind, i.record) }

  // ----- paths

  function AppendPath(path: string, name: string): string {
    if name == "" then path else if path == "" then name else path + "\\" + name
  }

  function PathOf(root: string, trail: seq<string>): string {
    if trail == [] then root else AppendPath(PathOf(root, trail[..|trail| - 1]), trail[|trail| - 1])
  }

  function NonEmpty(names: seq<string>): seq<string> {
    if names == [] then [] else (if names[0] == "" then [] else [names[0]]) + NonEmpty(names[1..])
  }

  function Joined(names: seq<string>): string {
    if names == [] then "" else if |names| == 1 then names[0] else names[0] + "\\" + Joined(names[1..])
  }

  lemma {:induction false} NonEmptyAppend(a: seq<string>, n: string)
    ensures NonEmpty(a + [n]) == NonEmpty(a) + (if n == "" then [] else [n])
  {
    if a == [] {
      assert ([] + [n])[1..] == [];
    } else {
      assert (a + [n])[1..] == a[1..] + [n];
      NonEmptyAppend(a[1..], n);
    }
  }

  lemma {:induction false} JoinedAppend(a: seq<string>, n: string)
    requires a != []
    ensures Joined(a + [n]) == Joined(a) + "\\" + n
  {
    if |a| == 1 {
      assert (a + [n])[1..] == [n];
    } else {
      assert (a + [n])[1..] == a[1..] + [n];
      JoinedAppend(a[1..], n);
      assert a[0] + "\\" + (Joined(a[1..]) + "\\" + n) == (a[0] + "\\" + Joined(a[1..])) + "\\" + n;
    }
  }

  /** A path is the join of the non-empty names from the root down. */
  lemma {:induction false} PathIsJoin(root: string, trail: seq<string>)
    ensures PathOf(root, trail) == Joined(NonEmpty([root] + trail))
    ensures NonEmpty([root] + trail) == [] ==> PathOf(root, trail) == ""
    ensures NonEmpty([root] + trail) != [] ==> PathOf(root, trail) != ""
  {
    if trail == [] {
      assert [root] + trail == [root] && [root][1..] == [];
    } else {
      var up, n := trail[..|trail| - 1], trail[|trail| - 1];
      PathIsJoin(root, up);
      assert [root] + trail == ([root] + up) + [n];
      NonEmptyAppend([root] + up, n);
      var names := NonEmpty([root] + up);
      if n == "" {
        assert names + [] == names;
      } else if names == [] {
        assert [] + [n] == [n];
      } else {
        JoinedAppend(names, n);
      }
    }
  }

  // ----- the order of items

  function FileItems(s: Store, fileName: Record -> string, parent: nat, trail: seq<string>, fs: seq<nat>,
                     i: nat): seq<Item>
  {
    if fs == [] then []
    else [FileItem(s, fileName, parent, trail, fs[0], i)] + FileItems(s, fileName, parent, trail, fs[1..], i + 1)
  }

  function FileItem(s: Store, fileName: Record -> string, parent: nat, trail: seq<string>, cell: nat, i: nat): Item {
    var c := if cell < |s.fileIndex| then s.fileIndex[cell] else FileCell(-1, 0, 0, 0);
    Item(FileKind, parent, c.offset, c.length, i, fileName(FileAt(s, cell)), trail)
  }

  function DirectoryItem(s: Store, parent: nat, trail: seq<string>, r: nat): Item {
    Item(DirectoryKind, parent, r, 0, -1, NameAt(s, r), trail)
  }

  function DirItems(s: Store, fileName: Record -> string, parent: nat, trail: seq<string>, f: Forest): seq<Item>
    decreases f, 0
  {
    match f
    case Nil => []
    case Node(_, r, fs, k, t) =>
      [DirectoryItem(s, parent, trail, r)] + Contents(s, fileName, r, trail + [NameAt(s, r)], fs, k)
        + DirItems(s, fileName, parent, trail, t)
  }

  /** Everything below a directory, in the order it is searched. */
  function Contents(s: Store, fileName: Record -> string, r: nat, trail: seq<string>, fs: seq<nat>,
                    k: Forest): seq<Item>
    decreases k, 1
  {
    FileItems(s, fileName, r, trail, fs, 0) + DirItems(s, fileName, r, trail, k)
  }

  // ----- what one pass finds

  datatype Found = Found(hit: Option<Item>, resume: Option<Key>)

  /** Skips up to and including the resume point, then stops at the first match. */
  function Pass(items: seq<Item>, resume: Option<Key>, matches: string -> bool): Found {
    if items == [] then Found(None, resume)
    else if resume.Some? then Pass(items[1..], if KeyOf(items[0]) == resume.value then None else resume, matches)
    else if matches(items[0].name) then Found(Some(items[0]), None)
    else Pass(items[1..], None, matches)
  }

  lemma {:induction false} PassJoin(a: seq<Item>, b: seq<Item>, resume: Option<Key>, matches: string -> bool)
    ensures Pass(a + b, resume, matches)
            == if Pass(a, resume, matches).hit.Some? then Pass(a, resume, matches)
              else Pass(b, Pass(a, resume, matches).resume, matches)
  {
    if a == [] {
      assert a + b == b;
    } else {
      assert (a + b)[1..] == a[1..] + b;
      PassJoin(a[1..], b, if resume.Some? && KeyOf(a[0]) != resume.value then resume else None, matches);
    }
  }

  /** A search from a resume point: what follows it, then everything from the start. */
  function Search(items: seq<Item>, resume: Option<Key>, matches: string -> bool): Option<Item> {
    var first := Pass(items, resume, matches).hit;
    if first.None? && resume.Some? then Pass(items, None, matches).hit else first
  }

  function Matches(items: seq<Item>, matches: string -> bool): seq<Item> {
    if items == [] then [] else (if matches(items[0].name) then [items[0]] else []) + Matches(items[1..], matches)
  }

  lemma {:induction false} PassFirst(items: seq<Item>, matches: string -> bool)
    ensures Pass(items, None, matches).resume == None
    ensures Pass(items, None, matches).hit == if Matches(items, matches) == [] then None
            else Some(Matches(items, matches)[0])
  {
    if items != [] && !matches(items[0].name) {
      PassFirst(items[1..], matches);
    }
  }

  ghost predicate DistinctKeys(items: seq<Item>) {
    forall i, j :: 0 <= i < j < |items| ==> KeyOf(items[i]) != KeyOf(items[j])
  }

  /** From a resume point inside the list, the first match after it. */
  lemma {:induction false} PassAfter(items: seq<Item>, p: nat, matches: string -> bool)
    requires DistinctKeys(items) && p < |items|
    ensures Pass(items, Some(KeyOf(items[p])), matches) == Pass(items[p + 1..], None, matches)
  {
    if p > 0 {
      assert KeyOf(items[0]) != KeyOf(items[p]);
      assert items[1..][p - 1] == items[p];
      forall i, j | 0 <= i < j < |items[1..]| ensures KeyOf(items[1..][i]) != KeyOf(items[1..][j]) {
        assert items[1..][i] == items[i + 1] && items[1..][j] == items[j + 1];
      }
      PassAfter(items[1..], p - 1, matches);
      assert items[1..][p - 1 + 1..] == items[p + 1..];
    }
  }

  lemma {:induction false} PassMissing(items: seq<Item>, key: Key, matches: string -> bool)
    requires forall i :: 0 <= i < |items| ==> KeyOf(items[i]) != key
    ensures Pass(items, Some(key), matches) == Found(None, Some(key))
  {
    if items != [] {
      assert KeyOf(items[0]) != key;
      forall i | 0 <= i < |items[1..]| ensures KeyOf(items[1..][i]) != key {
        assert items[1..][i] == items[i + 1];
      }
      PassMissing(items[1..], key, matches);
    }
  }

  /** The `i`th match stands somewhere in the list, with exactly the later matches after it. */
  lemma {:induction false} MatchAt(items: seq<Item>, i: nat, matches: string -> bool) returns (p: nat)
    requires i < |Matches(items, matches)|
    ensures p < |items| && items[p] == Matches(items, matches)[i]
    ensures Matches(items[p + 1..], matches) == Matches(items, matches)[i + 1..]
  {
    MatchesHead(items, matches);
    var later := Matches(items[1..], matches);
    hide Matches;
    if matches(items[0].name) && i == 0 {
      p := 0;
    } else {
      p := MatchAt(items[1..], if matches(items[0].name) then i - 1 else i, matches);
      assert items[1..][p + 1..] == items[p + 2..];
      p := p + 1;
    }
  }

  lemma {:induction false} MatchesHead(items: seq<Item>, matches: string -> bool)
    requires Matches(items, matches) != []
    ensures items != []
    ensures var ms, later := Matches(items, matches), Matches(items[1..], matches);
            if matches(items[0].name) then ms[0] == items[0] && ms[1..] == later && |ms| == 1 + |later| else ms == later
  {
  }

  /** Searching on from each hit visits every match once, in order, and then starts over. */
  lemma SearchCycles(items: seq<Item>, i: nat, matches: string -> bool)
    requires DistinctKeys(items) && i < |Matches(items, matches)|
    ensures var ms := Matches(items, matches);
            && Search(items, None, matches) == Some(ms[0])
            && Search(items, Some(KeyOf(ms[i])), matches) == Some(ms[if i + 1 < |ms| then i + 1 else 0])
  {
    PassFirst(items, matches);
    var p := MatchAt(items, i, matches);
    PassAfter(items, p, matches);
    PassFirst(items[p + 1..], matches);
  }

  /** Nothing is found, from anywhere, exactly when nothing matches. */
  lemma SearchFindsNothing(items: seq<Item>, resume: Option<Key>, matches: string -> bool)
    ensures Search(items, resume, matches) == None <==> Matches(items, matches) == []
  {
    PassFirst(items, matches);
    PassHitMatches(items, resume, matches);
  }

  lemma {:induction false} PassHitMatches(items: seq<Item>, resume: Option<Key>, matches: string -> bool)
    ensures Pass(items, resume, matches).hit.Some? ==> Matches(items, matches) != []
  {
    if items != [] {
      PassHitMatches(items[1..], if resume.Some? && KeyOf(items[0]) != resume.value then resume else None, matches);
    }
  }

  /** A resume point that is no longer there restarts the search. */
  lemma LostResumePoint(items: seq<Item>, key: Key, matches: string -> bool)
    requires forall i :: 0 <= i < |items| ==> KeyOf(items[i]) != key
    ensures Search(items, Some(key), matches) == Search(items, None, matches)
  {
    PassMissing(items, key, matches);
  }

  // ----- the keys of a laid-out store

  /** The key names one of these file cells by its record's offset, or one of these directories. */
  ghost predicate KeyAmong(s: Store, key: Key, files: set<nat>, records: set<nat>) {
    match key.kind
    case FileKind => exists c :: c in files && c < |s.fileIndex| && s.fileIndex[c].offset == key.record
    case DirectoryKind => exists r :: r in records && r == key.record
  }

  ghost predicate KeysAmong(s: Store, items: seq<Item>, files: set<nat>, records: set<nat>) {
    forall i :: 0 <= i < |items| ==> KeyAmong(s, KeyOf(items[i]), files, records)
  }

  lemma KeyWidens(s: Store, key: Key, files: set<nat>, records: set<nat>, files': set<nat>, records': set<nat>)
    requires KeyAmong(s, key, files, records) && files <= files' && records <= records'
    ensures KeyAmong(s, key, files', records')
  {
  }

  /** Keys from different cells and different directories differ. */
  lemma KeysApart(s: Store, a: Key, b: Key, files: set<nat>, records: set<nat>, files': set<nat>, records': set<nat>)
    requires Packed(s) && KeyAmong(s, a, files, records) && KeyAmong(s, b, files', records')
    requires files !! files' && records !! records'
    ensures a != b
  {
    hide Packed;
    if a == b && a.kind.FileKind? {
      var c :| c in files && c < |s.fileIndex| && s.fileIndex[c].offset == a.record;
      var d :| d in files' && d < |s.fileIndex| && s.fileIndex[d].offset == b.record;
      PackedOffsets(s, c, d);
    }
  }

  lemma DistinctJoin(s: Store, a: seq<Item>, b: seq<Item>, files: set<nat>, records: set<nat>, files': set<nat>,
                     records': set<nat>)
    requires Packed(s) && DistinctKeys(a) && DistinctKeys(b) && KeysAmong(s, a, files, records)
             && KeysAmong(s, b, files', records')
    requires files !! files' && records !! records'
    ensures DistinctKeys(a + b) && KeysAmong(s, a + b, files + files', records + records')
  {
    hide Packed, KeyAmong;
    var items := a + b;
    forall i | 0 <= i < |items| ensures KeyAmong(s, KeyOf(items[i]), files + files', records + records') {
      if i < |a| {
        KeyWidens(s, KeyOf(a[i]), files, records, files + files', records + records');
      } else {
        KeyWidens(s, KeyOf(b[i - |a|]), files', records', files + files', records + records');
      }
    }
    forall i, j | 0 <= i < j < |items| ensures KeyOf(items[i]) != KeyOf(items[j]) {
      if i < |a| <= j {
        KeysApart(s, KeyOf(a[i]), KeyOf(b[j - |a|]), files, records, files', records');
      }
    }
  }

  lemma {:induction false} FileKeys(s: Store, fileName: Record -> string, parent: nat, trail: seq<string>, fs: seq<nat>,
                                    i: nat)
    requires Packed(s) && Distinct(fs) && forall c :: c in fs ==> c < |s.fileIndex|
    ensures DistinctKeys(FileItems(s, fileName, parent, trail, fs, i))
    ensures KeysAmong(s, FileItems(s, fileName, parent, trail, fs, i), Elements(fs), {})
    decreases |fs|
  {
    hide Packed;
    if fs != [] {
      var item := FileItem(s, fileName, parent, trail, fs[0], i);
      assert fs[0] in fs && KeyOf(item) == Key(FileKind, s.fileIndex[fs[0]].offset);
      assert KeyAmong(s, KeyOf(item), {fs[0]}, {});
      assert forall c :: c in fs[1..] ==> c in fs;
      FileKeys(s, fileName, parent, trail, fs[1..], i + 1);
      assert Elements(fs) == {fs[0]} + Elements(fs[1..]);
      hide KeyAmong, FileItem;
      DistinctJoin(s, [item], FileItems(s, fileName, parent, trail, fs[1..], i + 1), {fs[0]}, {}, Elements(fs[1..]),
                   {});
    }
  }

  lemma {:induction false} DirectoryKeys(s: Store, fileName: Record -> string, parent: nat, trail: seq<string>,
                                         f: Forest)
    requires Packed(s) && Separated(f) && FilesPresent(s, f)
    ensures DistinctKeys(DirItems(s, fileName, parent, trail, f))
    ensures KeysAmong(s, DirItems(s, fileName, parent, trail, f), FileCells(f), Records(f))
    decreases f, 0
  {
    hide Packed;
    match f
    case Nil =>
    case Node(_, r, fs, k, t) =>
      var item, below := DirectoryItem(s, parent, trail, r), trail + [NameAt(s, r)];
      assert KeyAmong(s, KeyOf(item), {}, {r});
      ContentKeys(s, fileName, r, below, fs, k);
      DirectoryKeys(s, fileName, parent, trail, t);
      hide KeyAmong, DirectoryItem, Contents;
      var inner, rest := Contents(s, fileName, r, below, fs, k), DirItems(s, fileName, parent, trail, t);
      DistinctJoin(s, [item], inner, {}, {r}, Elements(fs) + FileCells(k), Records(k));
      DistinctJoin(s, [item] + inner, rest, Elements(fs) + FileCells(k), {r} + Records(k), FileCells(t), Records(t));
      assert {} + (Elements(fs) + FileCells(k)) == Elements(fs) + FileCells(k);
  }

  /** No two items below a directory of a laid-out store have the same key. */
  lemma {:induction false} ContentKeys(s: Store, fileName: Record -> string, r: nat, trail: seq<string>, fs: seq<nat>,
                                       k: Forest)
    requires Packed(s) && Separated(k) && FilesPresent(s, k) && FilesIn(s, Elements(fs))
    requires Distinct(fs) && Elements(fs) !! FileCells(k)
    ensures DistinctKeys(Contents(s, fileName, r, trail, fs, k))
    ensures KeysAmong(s, Contents(s, fileName, r, trail, fs, k), Elements(fs) + FileCells(k), Records(k))
    decreases k, 1
  {
    hide Packed, KeyAmong;
    assert forall c :: c in fs ==> c in Elements(fs);
    FileKeys(s, fileName, r, trail, fs, 0);
    DirectoryKeys(s, fileName, r, trail, k);
    DistinctJoin(s, FileItems(s, fileName, r, trail, fs, 0), DirItems(s, fileName, r, trail, k), Elements(fs), {},
                 FileCells(k), Records(k));
    assert {} + Records(k) == Records(k);
  }

  /** A directory laid out as parsing and merging leave it: no cell used twice, no record shared. */
  ghost predicate Searchable(s: Store, r: nat, fs: seq<nat>, k: Forest) {
    && r < |s.dirRecords| && Holds(s, s.dirRecords[r], fs, k)
    && Packed(s) && Separated(k) && FilesPresent(s, k) && FilesIn(s, Elements(fs))
    && Distinct(fs) && Elements(fs) !! FileCells(k)
  }

  /** The forest has a directory with that record, those files and those subdirectories. */
  predicate Within(f: Forest, r: nat, fs: seq<nat>, k: Forest) {
    match f
    case Nil => false
    case Node(_, r', fs', k', t) => (r == r' && fs == fs' && k == k') || Within(k', r, fs, k) || Within(t, r, fs, k)
  }

  lemma {:induction false} EveryDirectorySearchable(s: Store, f: Forest, first: int, stop: int, r: nat, fs: seq<nat>,
                                                    k: Forest)
    requires Packed(s) && DirSeg(s, f, first, stop) && Separated(f) && FilesPresent(s, f) && Within(f, r, fs, k)
    ensures Searchable(s, r, fs, k)
    decreases f
  {
    hide Packed;
    match f
    case Node(c, r', fs', k', t) =>
      if Within(k', r, fs, k) {
        EveryDirectorySearchable(s, k', s.dirRecords[r'].dirFirst, -1, r, fs, k);
      } else if Within(t, r, fs, k) {
        EveryDirectorySearchable(s, t, s.dirIndex[c].next, stop, r, fs, k);
      }
  }

  // ----- the search itself

  /** The hit a search reports for an item: its own path and its directory's. */
  function HitOf(root: string, i: Item): Hit {
    Hit(i.kind, i.parent, i.record, i.length, i.fileIndex, AppendPath(PathOf(root, i.trail), i.name),
        PathOf(root, i.trail))
  }

  function HitsOf(root: string, hit: Option<Item>): Option<Hit> {
    match hit case None => None case Some(i) => Some(HitOf(root, i))
  }

  function HitKey(h: Hit): Key { Key(h.kind, h.record) }

  /** Everything below a directory that matches, as the search reports it. */
  function AllHits(root: string, ms: seq<Item>): (hits: seq<Hit>)
    ensures |hits| == |ms| && forall i :: 0 <= i < |ms| ==> hits[i] == HitOf(root, ms[i])
  {
    seq(|ms|, i requires 0 <= i < |ms| => HitOf(root, ms[i]))
  }

  /** The hit to report when resuming from `resume`: the first, or the one after the resume point,
      and after the last the first again. */
  ghost predicate NextHit(hits: seq<Hit>, resume: Option<Key>, hit: Option<Hit>) {
    && (hits == [] ==> hit == None)
    && (hits != [] && resume == None ==> hit == Some(hits[0]))
    && (forall i :: 0 <= i < |hits| && resume == Some(HitKey(hits[i])) ==>
          hit == Some(hits[if i + 1 < |hits| then i + 1 else 0]))
  }

  lemma HitsInTurn(root: string, items: seq<Item>, resume: Option<Key>, matches: string -> bool)
    requires DistinctKeys(items)
    ensures NextHit(AllHits(root, Matches(items, matches)), resume, HitsOf(root, Search(items, resume, matches)))
  {
    hide Search, Matches, DistinctKeys, PathOf, AppendPath;
    var ms := Matches(items, matches);
    var hits := AllHits(root, ms);
    SearchFindsNothing(items, resume, matches);
    if hits != [] { SearchCycles(items, 0, matches); }
    forall i | 0 <= i < |hits| && resume == Some(HitKey(hits[i]))
      ensures HitsOf(root, Search(items, resume, matches)) == Some(hits[if i + 1 < |hits| then i + 1 else 0])
    {
      assert hits[i] == HitOf(root, ms[i]) && HitKey(hits[i]) == KeyOf(ms[i]);
      SearchCycles(items, i, matches);
    }
  }

  lemma {:induction false} FilesNext(s: Store, fileName: Record -> string, r: nat, trail: seq<string>, fs: seq<nat>,
                                     at: int, i: nat, resume: Option<Key>, matches: string -> bool)
    requires fs != [] && FileSeg(s.fileIndex, at, fs, -1)
    ensures 0 <= at < |s.fileIndex| && FileSeg(s.fileIndex, s.fileIndex[at].next, fs[1..], -1)
    ensures var item := FileItem(s, fileName, r, trail, at, i);
            var rest := FileItems(s, fileName, r, trail, fs[1..], i + 1);
            Pass(FileItems(s, fileName, r, trail, fs, i), resume, matches)
            == if resume.Some? then Pass(rest, if KeyOf(item) == resume.value then None else resume, matches)
               else if matches(item.name) then Found(Some(item), None) else Pass(rest, None, matches)
  {
    var items := FileItems(s, fileName, r, trail, fs, i);
    assert items[0] == FileItem(s, fileName, r, trail, fs[0], i);
    assert items[1..] == FileItems(s, fileName, r, trail, fs[1..], i + 1);
    hide FileItem, FileItems;
  }

  lemma NoFilesLeft(s: Store, fileName: Record -> string, r: nat, trail: seq<string>, i: nat, resume: Option<Key>,
                    matches: string -> bool)
    ensures Pass(FileItems(s, fileName, r, trail, [], i), resume, matches) == Found(None, resume)
  {
  }

  lemma {:induction false} DirsNext(s: Store, fileName: Record -> string, parent: nat, trail: seq<string>, f: Forest,
                                    at: int, resume: Option<Key>, matches: string -> bool)
    requires f.Node? && DirSeg(s, f, at, -1)
    ensures 0 <= at < |s.dirIndex| && s.dirIndex[at].record == f.record < |s.dirRecords|
    ensures Holds(s, s.dirRecords[f.record], f.files, f.kids) && DirSeg(s, f.rest, s.dirIndex[at].next, -1)
    ensures var item := DirectoryItem(s, parent, trail, f.record);
            var inner := Contents(s, fileName, f.record, trail + [NameAt(s, f.record)], f.files, f.kids);
            var rest := DirItems(s, fileName, parent, trail, f.rest);
            Pass(DirItems(s, fileName, parent, trail, f), resume, matches)
            == if resume.None? && matches(item.name) then Found(Some(item), None)
               else
                 var next := if resume.Some? && KeyOf(item) != resume.value then resume else None;
                 var within := Pass(inner, next, matches);
                 if within.hit.Some? then within else Pass(rest, within.resume, matches)
  {
    var item := DirectoryItem(s, parent, trail, f.record);
    var inner := Contents(s, fileName, f.record, trail + [NameAt(s, f.record)], f.files, f.kids);
    var rest := DirItems(s, fileName, parent, trail, f.rest);
    var all := DirItems(s, fileName, parent, trail, f);
    assert all == [item] + (inner + rest);
    hide Contents, DirItems, DirectoryItem, DirSeg, Holds;
    PassStep(item, inner + rest, resume, matches);
    PassJoin(inner, rest, if resume.Some? && KeyOf(item) != resume.value then resume else None, matches);
  }

  lemma {:induction false} PassStep(item: Item, items: seq<Item>, resume: Option<Key>, matches: string -> bool)
    ensures Pass([item] + items, resume, matches)
            == if resume.Some? then Pass(items, if KeyOf(item) == resume.value then None else resume, matches)
               else if matches(item.name) then Found(Some(item), None) else Pass(items, None, matches)
  {
    assert ([item] + items)[1..] == items;
  }

  lemma PathBelow(root: string, trail: seq<string>, name: string)
    ensures PathOf(root, trail + [name]) == AppendPath(PathOf(root, trail), name)
  {
    assert (trail + [name])[..|trail|] == trail;
  }

  lemma AppendRestores(path: string, name: string)
    ensures |path| <= |AppendPath(path, name)| && AppendPath(path, name)[..|path|] == path
  {
  }

  class SearchState {
    const matches: string -> bool
    const resumeKey: Key
    var resumeActive: bool

    constructor (matches: string -> bool, resume: Option<Key>)
      ensures this.matches == matches && Resume() == resume
    {
      this.matches := matches;
      resumeKey := if resume.Some? then resume.value else Key(FileKind, -1);
      resumeActive := resume.Some?;
    }

    function Resume(): Option<Key>
      reads this
    {
      if resumeActive then Some(resumeKey) else None
    }

    /** Searches a directory's files, then each subdirectory and what is below it.  `path` is the
        directory's path, as it is again afterwards. */
    method SearchContents(s: Store, fileName: Record -> string, r: nat, ghost root: string, path: string,
                          ghost trail: seq<string>, ghost fs: seq<nat>, ghost k: Forest)
      returns (hit: Option<Hit>, path': string)
      requires r < |s.dirRecords| && Holds(s, s.dirRecords[r], fs, k) && path == PathOf(root, trail)
      modifies this`resumeActive
      ensures var found := Pass(Contents(s, fileName, r, trail, fs, k), old(Resume()), matches);
              hit == HitsOf(root, found.hit) && Resume() == found.resume
      ensures path' == path
      decreases Size(k), 1
    {
      hide Pass, FileItems, DirItems, PathOf, HitOf, FileSeg, DirSeg;
      PassJoin(FileItems(s, fileName, r, trail, fs, 0), DirItems(s, fileName, r, trail, k), Resume(), matches);
      path' := path;
      hit := SearchFiles(s, fileName, r, root, path, trail, fs);
      if hit.None? {
        hit, path' := SearchDirectories(s, fileName, r, root, path, trail, k);
      }
    }

    method SearchFiles(s: Store, fileName: Record -> string, r: nat, ghost root: string, path: string,
                       ghost trail: seq<string>, ghost fs: seq<nat>)
      returns (hit: Option<Hit>)
      requires r < |s.dirRecords| && FileSeg(s.fileIndex, s.dirRecords[r].fileFirst, fs, -1)
               && s.dirRecords[r].fileCount == |fs|
      requires path == PathOf(root, trail)
      modifies this`resumeActive
      ensures var found := Pass(FileItems(s, fileName, r, trail, fs, 0), old(Resume()), matches);
              hit == HitsOf(root, found.hit) && Resume() == found.resume
    {
      hide Pass, FileItems, PathOf, FileSeg, FileAt;
      var at := s.dirRecords[r].fileFirst;
      ghost var rest, all := fs, Pass(FileItems(s, fileName, r, trail, fs, 0), Resume(), matches);
      for i := 0 to s.dirRecords[r].fileCount
        invariant FileSeg(s.fileIndex, at, rest, -1) && |rest| == |fs| - i
        invariant Pass(FileItems(s, fileName, r, trail, rest, i), Resume(), matches) == all
      {
        FilesNext(s, fileName, r, trail, rest, at, i, Resume(), matches);
        var entry := s.fileIndex[at];
        var name := fileName(FileAt(s, at));
        if resumeActive {
          if resumeKey == Key(FileKind, entry.offset) {
            resumeActive := false;
          }
        } else if matches(name) {
          return Some(Hit(FileKind, r, entry.offset, entry.length, i, AppendPath(path, name), path));
        }
        at := entry.next;
        rest := rest[1..];
      }
      assert rest == [];
      NoFilesLeft(s, fileName, r, trail, s.dirRecords[r].fileCount, Resume(), matches);
      hit := None;
    }

    method SearchDirectories(s: Store, fileName: Record -> string, r: nat, ghost root: string, path: string,
                             ghost trail: seq<string>, ghost k: Forest)
      returns (hit: Option<Hit>, path': string)
      requires r < |s.dirRecords| && DirSeg(s, k, s.dirRecords[r].dirFirst, -1) && s.dirRecords[r].dirCount == Length(k)
      requires path == PathOf(root, trail)
      modifies this`resumeActive
      ensures var found := Pass(DirItems(s, fileName, r, trail, k), old(Resume()), matches);
              hit == HitsOf(root, found.hit) && Resume() == found.resume
      ensures path' == path
      decreases Size(k), 0
    {
      hide Pass, DirItems, PathOf, DirSeg, Holds, Contents;
      var at := s.dirRecords[r].dirFirst;
      path' := path;
      ghost var rest, all := k, Pass(DirItems(s, fileName, r, trail, k), Resume(), matches);
      for i := 0 to s.dirRecords[r].dirCount
        invariant DirSeg(s, rest, at, -1) && Length(rest) == Length(k) - i && Size(rest) <= Size(k) && path' == path
        invariant Pass(DirItems(s, fileName, r, trail, rest), Resume(), matches) == all
      {
        DirsNext(s, fileName, r, trail, rest, at, Resume(), matches);
        var entry := s.dirIndex[at];
        var name := NameAt(s, entry.record);
        var wasResuming := resumeActive;
        if wasResuming && resumeKey == Key(DirectoryKind, entry.record) {
          resumeActive := false;
        }
        var originalLength := |path'|;
        path' := AppendPath(path', name);
        AppendRestores(path, name);
        PathBelow(root, trail, name);
        if !wasResuming && matches(name) {
          var fullPath := path';
          path' := path'[..originalLength];
          return Some(Hit(DirectoryKind, r, entry.record, 0, -1, fullPath, path')), path';
        }
        hit, path' := SearchContents(s, fileName, entry.record, root, path', trail + [name], rest.files, rest.kids);
        path' := path'[..originalLength];
        if hit.Some? {
          return;
        }
        at := entry.next;
        rest := rest.rest;
      }
      assert rest.Nil?;
      NoDirsLeft(s, fileName, r, trail, Resume(), matches);
      hit := None;
    }
  }

  lemma NoDirsLeft(s: Store, fileName: Record -> string, r: nat, trail: seq<string>, resume: Option<Key>,
                   matches: string -> bool)
    ensures Pass(DirItems(s, fileName, r, trail, Nil), resume, matches) == Found(None, resume)
  {
  }

  /** The whole search, wrapping round to the start when a resumed pass finds nothing. */
  method SearchStore(s: Store, fileName: Record -> string, rootRecord: nat, rootPath: string, matches: string -> bool,
                     resume: Option<Key>, ghost fs: seq<nat>, ghost k: Forest)
    returns (hit: Option<Hit>)
    requires rootRecord < |s.dirRecords| && Holds(s, s.dirRecords[rootRecord], fs, k)
    ensures hit == HitsOf(rootPath, Search(Contents(s, fileName, rootRecord, [], fs, k), resume, matches))
    // in a store as parsing and merging leave it, hits come in turn
    ensures Searchable(s, rootRecord, fs, k) ==>
      NextHit(AllHits(rootPath, Matches(Contents(s, fileName, rootRecord, [], fs, k), matches)), resume, hit)
  {
    hide Pass, Contents, Holds, Search, Matches, Packed, DistinctKeys, Separated, NextHit, AllHits;
    var state := new SearchState(matches, resume);
    var path;
    hit, path := state.SearchContents(s, fileName, rootRecord, rootPath, rootPath, [], fs, k);
    if hit.None? && resume.Some? {
      state.resumeActive := false;
      hit, path := state.SearchContents(s, fileName, rootRecord, rootPath, rootPath, [], fs, k);
    }
    ghost var items := Contents(s, fileName, rootRecord, [], fs, k);
    SearchIs(items, resume, matches);
    if Searchable(s, rootRecord, fs, k) {
      ContentKeys(s, fileName, rootRecord, [], fs, k);
      HitsInTurn(rootPath, items, resume, matches);
    }
  }

  lemma SearchIs(items: seq<Item>, resume: Option<Key>, matches: string -> bool)
    ensures var first := Pass(items, resume, matches).hit;
      Search(items, resume, matches) == if first.None? && resume.Some? then Pass(items, None, matches).hit else first
  {
  }
}
