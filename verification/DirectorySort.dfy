/** Sorting one directory's children by name: the entries of an index chain are collected in sorted
    runs and merged into a new chain at another place.  The name order is any total preorder. */
module DirectorySort {
  import opened Alignment
  import opened Common
  import opened RunFormat
  import opened StableMerge

  datatype IndexEntry = IndexEntry(next: int, record: int, length: int, selection: int)

  datatype SortEntry = SortEntry(record: int, length: int, selection: int, name: seq<Octet>, sequence: nat)

  type NameOrder = (seq<Octet>, seq<Octet>) -> bool

  function EntryLeq(names: NameOrder): (SortEntry, SortEntry) -> bool {
    (x: SortEntry, y: SortEntry) => names(x.name, y.name)
  }

  // ----- the run format keeps the sequence

  predicate Storable(e: SortEntry, utf8: seq<Octet> -> bool) {
    IsI64(e.record) && IsI64(e.length) && IsI64(e.selection) && e.sequence < TWO_64 && |e.name| < TWO_32 && utf8(e.name)
  }

  function Encode(e: SortEntry): seq<Octet>
    requires IsI64(e.record) && IsI64(e.length) && IsI64(e.selection)
  {
    ToI64(e.record) + ToI64(e.length) + ToI64(e.selection) + ToLe(e.sequence, 8) + Leb(|e.name|) + e.name
  }

  function Decode(b: seq<Octet>, utf8: seq<Octet> -> bool): Result<Option<(SortEntry, seq<Octet>)>, ()> {
    if b == [] then Ok(None)
    else if |b| < 32 then Err(())
    else match ParseLeb(b[32..], 0, 0)
         case Err(e) => Err(e)
         case Ok((n, rest)) =>
           if |rest| < n || !utf8(rest[..n]) then Err(())
           else Ok(Some((SortEntry(FromI64(b[..8]), FromI64(b[8..16]), FromI64(b[16..24]), rest[..n],
                                   FromLe(b[24..32])), rest[n..])))
  }

  lemma DecodeEncode(e: SortEntry, rest: seq<Octet>, utf8: seq<Octet> -> bool)
    requires Storable(e, utf8)
    ensures Decode(Encode(e) + rest, utf8) == Ok(Some((e, rest)))
  {
    var b := Encode(e) + rest;
    var tail := Leb(|e.name|) + (e.name + rest);
    assert b == ToI64(e.record) + ToI64(e.length) + ToI64(e.selection) + ToLe(e.sequence, 8) + tail;
    hide Leb, ToI64, FromI64, ParseLeb, ToLe, FromLe;
    assert b[..8] == ToI64(e.record) && b[8..16] == ToI64(e.length) && b[16..24] == ToI64(e.selection);
    assert b[24..32] == ToLe(e.sequence, 8) && b[32..] == tail;
    I64RoundTrip(e.record);
    I64RoundTrip(e.length);
    I64RoundTrip(e.selection);
    SequenceRoundTrip(e.sequence);
    LebRoundTrip(|e.name|, e.name + rest);
    assert (e.name + rest)[..|e.name|] == e.name && (e.name + rest)[|e.name|..] == rest;
  }

  lemma SequenceRoundTrip(v: nat)
    requires v < TWO_64
    ensures FromLe(ToLe(v, 8)) == v
  {
    assert Power256(8) == TWO_64;
    LittleEndianRoundTrip(v, 8);
  }

  /** An entry's bytes: record, length, selection and sequence in eight bytes each, the length of the name in
      bytes of seven bits, and the name. */
  lemma EntryLayout(e: SortEntry) returns (lengthBytes: seq<Octet>)
    requires IsI64(e.record) && IsI64(e.length) && IsI64(e.selection) && e.sequence < TWO_64
    ensures var b := Encode(e);
      && |b| == 32 + |lengthBytes| + |e.name|
      && U64(b[..8]) == e.record % TWO_64 && U64(b[8..16]) == e.length % TWO_64
      && U64(b[16..24]) == e.selection % TWO_64 && U64(b[24..32]) == e.sequence
      && b[32..32 + |lengthBytes|] == lengthBytes && b[32 + |lengthBytes|..] == e.name
    ensures Sevens(lengthBytes) == |e.name|
    ensures lengthBytes != [] && forall i :: 0 <= i < |lengthBytes| ==>
      (lengthBytes[i] < 0x80 <==> i == |lengthBytes| - 1)
  {
    hide ToI64, Leb, ToLe;
    lengthBytes := Leb(|e.name|);
    LebLayout(|e.name|);
    I64Layout(e.record, ToI64(e.record));
    I64Layout(e.length, ToI64(e.length));
    I64Layout(e.selection, ToI64(e.selection));
    SequenceRoundTrip(e.sequence);
    FromLeIsU64(ToLe(e.sequence, 8));
    var b := Encode(e);
    assert b[..8] == ToI64(e.record) && b[8..16] == ToI64(e.length) && b[16..24] == ToI64(e.selection);
    assert b[24..32] == ToLe(e.sequence, 8);
  }

  // ----- the chain read

  /** The first `count` entries of the chain at `first`, numbered from `sequence`; nothing when the
      chain is broken or a name cannot be read. */
  function ChainEntries(index: map<int, IndexEntry>, names: (int, int) -> Option<seq<Octet>>, first: int, count: nat,
                        sequence: nat): Option<seq<SortEntry>>
    decreases count
  {
    if count == 0 then Some([])
    else if first < 0 || first !in index then None
    else
      var e := index[first];
      match names(e.record, e.length)
      case None => None
      case Some(name) =>
        match ChainEntries(index, names, e.next, count - 1, sequence + 1)
        case None => None
        case Some(more) => Some([SortEntry(e.record, e.length, e.selection, name, sequence)] + more)
  }

  lemma {:induction false} ChainNumbered(index: map<int, IndexEntry>, names: (int, int) -> Option<seq<Octet>>,
                                         first: int, count: nat, sequence: nat)
    requires ChainEntries(index, names, first, count, sequence).Some?
    ensures var es := ChainEntries(index, names, first, count, sequence).value;
            |es| == count && forall i :: 0 <= i < count ==> es[i].sequence == sequence + i
    decreases count
  {
    if count > 0 {
      ChainNumbered(index, names, index[first].next, count - 1, sequence + 1);
    }
  }

  // ----- the chain written

  function Tags(es: seq<SortEntry>): (t: seq<Tagged<SortEntry>>)
    ensures |t| == |es| && forall i :: 0 <= i < |es| ==> t[i] == Tagged(es[i], es[i].sequence)
  {
    seq(|es|, i requires 0 <= i < |es| => Tagged(es[i], es[i].sequence))
  }

  /** Entries laid out from `target`, each pointing at the place after it; when nothing more is to
      come the last one points at -1. */
  function Linked(sorted: seq<Tagged<SortEntry>>, target: int, size: nat, more: bool): (cells: seq<IndexEntry>)
    ensures |cells| == |sorted|
  {
    seq(|sorted|, k requires 0 <= k < |sorted| =>
      IndexEntry(if k + 1 == |sorted| && !more then -1 else target + (k + 1) * size,
                 sorted[k].item.record, sorted[k].item.length, sorted[k].item.selection))
  }

  function Chain(sorted: seq<Tagged<SortEntry>>, target: int, size: nat): (cells: seq<IndexEntry>)
    ensures |cells| == |sorted|
  {
    Linked(sorted, target, size, false)
  }

  /** Follows the chain laid out at `target` from the offset `at`. */
  function Walk(cells: seq<IndexEntry>, target: int, size: nat, at: int, fuel: nat): seq<IndexEntry>
    requires size > 0
    decreases fuel
  {
    if at < target || fuel == 0 then []
    else
      var k := (at - target) / size;
      if (at - target) % size != 0 || k >= |cells| then []
      else [cells[k]] + Walk(cells, target, size, cells[k].next, fuel - 1)
  }

  lemma CellNumber(k: nat, size: nat)
    requires size > 0
    ensures (k * size) / size == k && (k * size) % size == 0
  {
    UniqueRemainder(k * size, size, k, 0);
  }

  /** Walking the new chain visits every entry once, in order, and ends at -1. */
  lemma {:induction false} ChainWalks(sorted: seq<Tagged<SortEntry>>, target: int, size: nat, k: nat, fuel: nat)
    requires size > 0 && target >= 0 && k < |sorted| && fuel > |sorted| - k
    ensures Walk(Chain(sorted, target, size), target, size, target + k * size, fuel) == Chain(sorted, target, size)[k..]
    decreases |sorted| - k
  {
    var cells := Chain(sorted, target, size);
    CellNumber(k, size);
    if k + 1 < |sorted| {
      ChainWalks(sorted, target, size, k + 1, fuel - 1);
      assert cells[k].next == target + (k + 1) * size;
    } else {
      assert cells[k].next == -1;
    }
    assert cells[k..] == [cells[k]] + cells[k + 1..];
  }

  lemma NamesOrder(names: NameOrder)
    requires TotalPreorder(names)
    ensures TotalPreorder(EntryLeq(names))
  {
    var leq := EntryLeq(names);
    forall x: SortEntry, y: SortEntry ensures leq(x, y) || leq(y, x) {
      assert names(x.name, y.name) || names(y.name, x.name);
    }
    forall x: SortEntry, y: SortEntry, z: SortEntry | leq(x, y) && leq(y, z) ensures leq(x, z) {
      assert names(x.name, y.name) && names(y.name, z.name);
    }
  }

  // ----- runs

  /** Entries that can be written, each under its own sequence. */
  ghost predicate AllStorable(t: seq<Tagged<SortEntry>>, utf8: seq<Octet> -> bool) {
    forall i :: 0 <= i < |t| ==> Storable(t[i].item, utf8) && t[i].sequence == t[i].item.sequence
  }

  /** The bytes of a run. */
  ghost function RunBytes(t: seq<Tagged<SortEntry>>, utf8: seq<Octet> -> bool): seq<Octet>
    requires AllStorable(t, utf8)
  {
    if t == [] then [] else Encode(t[0].item) + RunBytes(t[1..], utf8)
  }

  lemma DecodeRun(t: seq<Tagged<SortEntry>>, utf8: seq<Octet> -> bool)
    requires AllStorable(t, utf8)
    ensures Decode(RunBytes(t, utf8), utf8) == if t == [] then Ok(None)
            else Ok(Some((t[0].item, RunBytes(t[1..], utf8))))
  {
    if t != [] {
      DecodeEncode(t[0].item, RunBytes(t[1..], utf8), utf8);
    }
  }

  lemma {:induction false} RunBytesAppend(t: seq<Tagged<SortEntry>>, x: Tagged<SortEntry>, utf8: seq<Octet> -> bool)
    requires AllStorable(t, utf8) && Storable(x.item, utf8) && x.sequence == x.item.sequence
    ensures AllStorable(t + [x], utf8) && RunBytes(t + [x], utf8) == RunBytes(t, utf8) + Encode(x.item)
  {
    hide Encode;
    if t == [] {
      assert ([] + [x])[1..] == [];
      assert RunBytes([x], utf8) == Encode(x.item) + RunBytes([], utf8);
    } else {
      assert (t + [x])[1..] == t[1..] + [x];
      RunBytesAppend(t[1..], x, utf8);
      assert Encode(t[0].item) + (RunBytes(t[1..], utf8) + Encode(x.item)) ==
             (Encode(t[0].item) + RunBytes(t[1..], utf8)) + Encode(x.item);
    }
  }

  /** The run files, each holding one of the sorted runs. */
  ghost predicate Files(files: seq<seq<Octet>>, runs: seq<seq<Tagged<SortEntry>>>, utf8: seq<Octet> -> bool) {
    |files| == |runs| && forall i :: 0 <= i < |files| ==>
      AllStorable(runs[i], utf8) && files[i] == RunBytes(runs[i], utf8)
  }

  // ----- merging

  /** Of the first `n` runs the next entry is in the heap and the reader stands behind it; the others
      have not been read from. */
  ghost predicate Fed(readers: seq<seq<Octet>>, heap: map<nat, Tagged<SortEntry>>, rest: seq<seq<Tagged<SortEntry>>>,
                      n: nat, utf8: seq<Octet> -> bool)
  {
    && n <= |rest| == |readers|
    && (forall i :: 0 <= i < |rest| ==> AllStorable(rest[i], utf8))
    && (forall i: nat :: i in heap <==> i < n && rest[i] != [])
    && (forall i :: 0 <= i < n && rest[i] != [] ==> heap[i] == rest[i][0] && readers[i] == RunBytes(rest[i][1..], utf8))
    && (forall i :: n <= i < |rest| ==> readers[i] == RunBytes(rest[i], utf8))
  }

  /** What reading run `i`'s next entry leads to. */
  ghost predicate Refilled(readers: seq<seq<Octet>>, heap: map<nat, Tagged<SortEntry>>, i: nat,
                           run: seq<Tagged<SortEntry>>, utf8: seq<Octet> -> bool, readers': seq<seq<Octet>>,
                             heap': map<nat, Tagged<SortEntry>>)
    requires i < |readers| && AllStorable(run, utf8)
  {
    if run == [] then heap' == heap && readers' == readers
    else heap' == heap[i := run[0]] && readers' == readers[i := RunBytes(run[1..], utf8)]
  }

  /** A run's reader advances: its next entry enters the heap, or the run is finished. */
  method Refill(readers: seq<seq<Octet>>, heap: map<nat, Tagged<SortEntry>>, i: nat, utf8: seq<Octet> -> bool,
                ghost run: seq<Tagged<SortEntry>>)
    returns (ok: bool, readers': seq<seq<Octet>>, heap': map<nat, Tagged<SortEntry>>)
    requires i < |readers| && AllStorable(run, utf8) && readers[i] == RunBytes(run, utf8)
    ensures ok && Refilled(readers, heap, i, run, utf8, readers', heap')
  {
    hide Decode, Storable;
    DecodeRun(run, utf8);
    ok, readers', heap' := true, readers, heap;
    match Decode(readers[i], utf8)
    case Err(_) => ok := false;
    case Ok(None) =>
    case Ok(Some((e, more))) => readers', heap' := readers[i := more], heap[i := Tagged(e, e.sequence)];
  }

  /** The least entry by name, then sequence. */
  method PopLeast(heap: map<nat, Tagged<SortEntry>>, runCount: nat, names: NameOrder) returns (least: nat)
    requires TotalPreorder(EntryLeq(names)) && heap != map[] && forall i :: i in heap ==> i < runCount
    requires forall i, j :: i in heap && j in heap && i != j ==> heap[i].sequence != heap[j].sequence
    ensures least in heap && forall j :: j in heap && j != least ==> Before(heap[least], heap[j], EntryLeq(names))
  {
    var best: Option<nat> := None;
    ghost var leq := EntryLeq(names);
    for i := 0 to runCount
      invariant best.None? ==> forall j :: j in heap ==> j >= i
      invariant best.Some? ==> best.value in heap && best.value < i
      invariant best.Some? ==> forall j :: j in heap && j < i && j != best.value ==>
        Before(heap[best.value], heap[j], leq)
    {
      if i in heap && (best.None? || Before(heap[i], heap[best.value], EntryLeq(names))) {
        if best.Some? {
          forall j | j in heap && j < i ensures Before(heap[i], heap[j], leq) {
            if j != best.value {
              BeforeTransitive(heap[i], heap[best.value], heap[j], leq);
            }
          }
        }
        best := Some(i);
      } else if i in heap {
        NotBefore(heap[i], heap[best.value], leq);
      }
    }
    var k :| k in heap;
    least := best.value;
  }

  lemma NotBefore(x: Tagged<SortEntry>, y: Tagged<SortEntry>, leq: (SortEntry, SortEntry) -> bool)
    requires TotalPreorder(leq) && !Before(x, y, leq) && x.sequence != y.sequence
    ensures Before(y, x, leq)
  {
    assert leq(x.item, y.item) || leq(y.item, x.item);
  }

  lemma HeadsDiffer(readers: seq<seq<Octet>>, heap: map<nat, Tagged<SortEntry>>, rest: seq<seq<Tagged<SortEntry>>>,
                    leq: (SortEntry, SortEntry) -> bool, utf8: seq<Octet> -> bool)
    requires Fed(readers, heap, rest, |rest|, utf8) && RunsOk(rest, leq)
    ensures forall i, j :: i in heap && j in heap && i != j ==> heap[i].sequence != heap[j].sequence
    ensures forall i: nat :: i in heap ==>
      i < |rest| == |readers| && rest[i] != [] && rest[i][0] == heap[i] && AllStorable(rest[i][1..], utf8)
      && readers[i] == RunBytes(rest[i][1..], utf8)
    ensures heap == map[] ==> forall i :: 0 <= i < |rest| ==> rest[i] == []
  {
    hide RunBytes, Storable;
    forall i, j | i in heap && j in heap && i != j ensures heap[i].sequence != heap[j].sequence {
      assert rest[i][0] == heap[i] && rest[j][0] == heap[j];
    }
  }

  lemma LeastIsFirst(readers: seq<seq<Octet>>, heap: map<nat, Tagged<SortEntry>>, rest: seq<seq<Tagged<SortEntry>>>,
                     leq: (SortEntry, SortEntry) -> bool, utf8: seq<Octet> -> bool, i: nat)
    requires Fed(readers, heap, rest, |rest|, utf8) && RunsOk(rest, leq) && i in heap
    requires forall j :: j in heap && j != i ==> Before(heap[i], heap[j], leq)
    ensures HeadFirst(rest, i, leq)
  {
    hide RunBytes, AllStorable;
    forall j | 0 <= j < |rest| && rest[j] != [] && j != i
      ensures leq(rest[i][0].item, rest[j][0].item) && (leq(rest[j][0].item, rest[i][0].item) ==> i < j)
    {
      assert j in heap && rest[i][0] == heap[i] && rest[j][0] == heap[j];
    }
  }

  lemma FedPop(readers: seq<seq<Octet>>, heap: map<nat, Tagged<SortEntry>>, rest: seq<seq<Tagged<SortEntry>>>, i: nat,
               utf8: seq<Octet> -> bool, readers': seq<seq<Octet>>, heap': map<nat, Tagged<SortEntry>>)
    requires Fed(readers, heap, rest, |rest|, utf8) && i in heap
    requires i < |rest| && rest[i] != [] && AllStorable(rest[i][1..], utf8)
    requires Refilled(readers, heap - {i}, i, rest[i][1..], utf8, readers', heap')
    ensures var after := rest[i := rest[i][1..]]; Fed(readers', heap', after, |after|, utf8) && |readers'| == |readers|
  {
    hide AllStorable, RunBytes;
  }

  lemma LinkedAppend(done: seq<Tagged<SortEntry>>, x: Tagged<SortEntry>, target: int, size: nat, more: bool)
    ensures Linked(done + [x], target, size, more)
            == Linked(done, target, size, true)
               + [IndexEntry(if more then target + (|done| + 1) * size else -1,
                              x.item.record, x.item.length, x.item.selection)]
  {
  }

  /** Merges the run files into the new chain.  The count always agrees at the end. */
  method MergeRuns(files: seq<seq<Octet>>, target: int, itemCount: nat, size: nat, utf8: seq<Octet> -> bool,
                   names: NameOrder, ghost runs: seq<seq<Tagged<SortEntry>>>, ghost items: seq<Tagged<SortEntry>>)
    returns (cells: Option<seq<IndexEntry>>)
    requires TotalPreorder(names) && Files(files, runs, utf8)
    requires RunsOk(runs, EntryLeq(names)) && Distinct(items) && All(runs) == multiset(items)
    requires itemCount == |items|
    ensures cells == if target < 0 then None else Some(Chain(StableSort(items, EntryLeq(names)), target, size))
  {
    hide Fed, RunsOk, Merging, HeadFirst, Distinct, All, StableSort, Linked, TotalPreorder, Before, EntryLeq, Files,
         AllStorable, RunBytes, Refilled, Decode, Storable;
    if target < 0 {
      return None;
    }
    ghost var leq := EntryLeq(names);
    NamesOrder(names);
    var readers := files;
    var heap: map<nat, Tagged<SortEntry>> := map[];
    FedStart(files, runs, items, leq, utf8);
    for i := 0 to |files|
      invariant |readers| == |files| == |runs| && Fed(readers, heap, runs, i, utf8)
    {
      FedRun(readers, heap, runs, i, utf8);
      var ok, readers', heap' := Refill(readers, heap, i, utf8, runs[i]);
      FedNext(readers, heap, runs, i, utf8, readers', heap');
      readers, heap := readers', heap';
      if !ok {
        return None;
      }
    }
    var written, out := 0, [];
    ghost var done, rest := [], runs;
    LinkedNone(target, size);
    while heap != map[]
      invariant |readers| == |rest| == |files| && Fed(readers, heap, rest, |rest|, utf8)
                && Merging(done, rest, multiset(items), leq)
      invariant written == |done| && out == Linked(done, target, size, heap != map[])
      decreases |All(rest)|
    {
      MergingRuns(done, rest, multiset(items), leq);
      HeadsDiffer(readers, heap, rest, leq, utf8);
      var i := PopLeast(heap, |files|, names);
      LeastIsFirst(readers, heap, rest, leq, utf8, i);
      MergeStep(done, rest, multiset(items), leq, i);
      AllTake(rest, i);
      var item := heap[i];
      var ok, readers', heap' := Refill(readers, heap - {i}, i, utf8, rest[i][1..]);
      FedPop(readers, heap, rest, i, utf8, readers', heap');
      readers, heap := readers', heap';
      var next := if heap == map[] then -1 else target + (written + 1) * size;
      LinkedAppend(done, item, target, size, heap != map[]);
      out := out + [IndexEntry(next, item.item.record, item.item.length, item.item.selection)];
      done, rest := done + [item], rest[i := rest[i][1..]];
      written := written + 1;
      if !ok {
        return None;
      }
    }
    MergingRuns(done, rest, multiset(items), leq);
    HeadsDiffer(readers, heap, rest, leq, utf8);
    MergeDone(done, rest, items, leq);
    SortLength(items, leq);
    if written != itemCount {
      return None;
    }
    cells := Some(out);
  }

  lemma FedStart(files: seq<seq<Octet>>, runs: seq<seq<Tagged<SortEntry>>>, items: seq<Tagged<SortEntry>>,
                 leq: (SortEntry, SortEntry) -> bool, utf8: seq<Octet> -> bool)
    requires Files(files, runs, utf8) && RunsOk(runs, leq) && All(runs) == multiset(items)
    ensures Fed(files, map[], runs, 0, utf8) && Merging([], runs, multiset(items), leq) && |runs| == |files|
  {
    hide RunsOk, All, Storable;
    var none: seq<Tagged<SortEntry>> := [];
    assert multiset(none) + All(runs) == All(runs);
  }

  lemma FedRun(readers: seq<seq<Octet>>, heap: map<nat, Tagged<SortEntry>>, rest: seq<seq<Tagged<SortEntry>>>, i: nat,
               utf8: seq<Octet> -> bool)
    requires Fed(readers, heap, rest, i, utf8) && i < |rest|
    ensures |readers| == |rest| && AllStorable(rest[i], utf8) && readers[i] == RunBytes(rest[i], utf8)
  {
    hide RunBytes, Storable;
  }

  lemma FedNext(readers: seq<seq<Octet>>, heap: map<nat, Tagged<SortEntry>>, rest: seq<seq<Tagged<SortEntry>>>, n: nat,
                utf8: seq<Octet> -> bool, readers': seq<seq<Octet>>, heap': map<nat, Tagged<SortEntry>>)
    requires n < |rest| && Fed(readers, heap, rest, n, utf8)
             && Refilled(readers, heap, n, rest[n], utf8, readers', heap')
    ensures Fed(readers', heap', rest, n + 1, utf8) && |readers'| == |readers|
  {
    hide AllStorable, RunBytes;
  }

  lemma LinkedNone(target: int, size: nat)
    ensures forall more :: Linked([], target, size, more) == []
  {
  }

  lemma MergingRuns(done: seq<Tagged<SortEntry>>, rest: seq<seq<Tagged<SortEntry>>>, total: multiset<Tagged<SortEntry>>,
                    leq: (SortEntry, SortEntry) -> bool)
    requires Merging(done, rest, total, leq)
    ensures RunsOk(rest, leq)
  {
  }

  lemma SortLength(items: seq<Tagged<SortEntry>>, leq: (SortEntry, SortEntry) -> bool)
    ensures |StableSort(items, leq)| == |items|
  {
    StableSortPermutes(items, leq);
    assert |multiset(StableSort(items, leq))| == |multiset(items)|;
  }

  // ----- the whole sort

  /** Runs so far hold, sorted, the first `n` entries of the chain. */
  ghost predicate Collected(runs: seq<seq<Tagged<SortEntry>>>, es: seq<SortEntry>, n: nat,
                            leq: (SortEntry, SortEntry) -> bool)
  {
    && n <= |es| && RunsOk(runs, leq) && All(runs) == multiset(Tags(es[..n]))
    && (forall i, k :: 0 <= i < |runs| && 0 <= k < |runs[i]| ==> runs[i][k].sequence < n)
  }

  lemma CollectedFlush(runs: seq<seq<Tagged<SortEntry>>>, es: seq<SortEntry>, n: nat, m: nat,
                       leq: (SortEntry, SortEntry) -> bool)
    requires TotalPreorder(leq) && Collected(runs, es, n, leq) && n <= m <= |es|
    requires forall i :: 0 <= i < |es| ==> es[i].sequence == i
    ensures Collected(runs + [StableSort(Tags(es[n..m]), leq)], es, m, leq)
  {
    hide StableSort, Sorted, All, Tags;
    var sorted := StableSort(Tags(es[n..m]), leq);
    ChunkSorted(es, n, m, leq);
    AllAppend(runs, sorted);
    TagsJoin(es, n, m);
  }

  lemma TagsJoin(es: seq<SortEntry>, n: nat, m: nat)
    requires n <= m <= |es|
    ensures multiset(Tags(es[..m])) == multiset(Tags(es[..n])) + multiset(Tags(es[n..m]))
  {
    assert Tags(es[..m]) == Tags(es[..n]) + Tags(es[n..m]);
  }

  lemma ChunkSorted(es: seq<SortEntry>, n: nat, m: nat, leq: (SortEntry, SortEntry) -> bool)
    requires TotalPreorder(leq) && n <= m <= |es|
    requires forall i :: 0 <= i < |es| ==> es[i].sequence == i
    ensures var sorted := StableSort(Tags(es[n..m]), leq);
            Sorted(sorted, leq) && multiset(sorted) == multiset(Tags(es[n..m]))
            && forall k :: 0 <= k < |sorted| ==> n <= sorted[k].sequence < m
  {
    hide StableSort, Sorted;
    var chunk := Tags(es[n..m]);
    var sorted := StableSort(chunk, leq);
    StableSortPermutes(chunk, leq);
    StableSortSorts(chunk, leq);
    forall k | 0 <= k < |sorted| ensures n <= sorted[k].sequence < m {
      assert sorted[k] in multiset(sorted);
      assert sorted[k] in chunk;
    }
  }

  lemma CollectedNone(es: seq<SortEntry>, leq: (SortEntry, SortEntry) -> bool)
    ensures Collected([], es, 0, leq)
  {
    assert es[..0] == [];
  }

  lemma CollectedAll(runs: seq<seq<Tagged<SortEntry>>>, es: seq<SortEntry>, leq: (SortEntry, SortEntry) -> bool)
    requires Collected(runs, es, |es|, leq)
    requires forall i :: 0 <= i < |es| ==> es[i].sequence == i
    ensures RunsOk(runs, leq) && All(runs) == multiset(Tags(es)) && Distinct(Tags(es))
  {
    assert es[..|es|] == es;
  }

  /** Index cells hold 64-bit numbers and names are valid text. */
  ghost predicate Readable(index: map<int, IndexEntry>, nameOf: (int, int) -> Option<seq<Octet>>, itemCount: nat,
                           utf8: seq<Octet> -> bool)
  {
    && (forall at :: at in index ==> IsI64(index[at].record) && IsI64(index[at].length) && IsI64(index[at].selection))
    && (forall r, l :: nameOf(r, l).Some? ==> utf8(nameOf(r, l).value))
    && itemCount <= TWO_64
  }

  predicate Widths(e: SortEntry, utf8: seq<Octet> -> bool) {
    IsI64(e.record) && IsI64(e.length) && IsI64(e.selection) && e.sequence < TWO_64 && utf8(e.name)
  }

  /** Every name's length fits the 32 bits it is written in. */
  ghost predicate NamesFit(es: seq<SortEntry>) { forall i :: 0 <= i < |es| ==> |es[i].name| < TWO_32 }

  /** Sorts the collected entries and writes them as a run; fails exactly on a name too long to write. */
  method FlushRun(entries: seq<SortEntry>, files: seq<seq<Octet>>, utf8: seq<Octet> -> bool, names: NameOrder)
    returns (r: Option<seq<seq<Octet>>>)
    requires forall i :: 0 <= i < |entries| ==> Widths(entries[i], utf8)
    ensures r.None? <==> !NamesFit(entries)
    ensures entries == [] ==> r == Some(files)
    ensures r.Some? && entries != [] ==>
      var sorted := StableSort(Tags(entries), EntryLeq(names));
      AllStorable(sorted, utf8) && r == Some(files + [RunBytes(sorted, utf8)])
  {
    hide Encode, StableSort, EntryLeq, RunBytes, AllStorable;
    if entries == [] {
      return Some(files);
    }
    ghost var leq := EntryLeq(names);
    var sorted := StableSort(Tags(entries), EntryLeq(names));
    var bytes := [];
    NoBytes(utf8);
    for k := 0 to |sorted|
      invariant AllStorable(sorted[..k], utf8) && bytes == RunBytes(sorted[..k], utf8)
    {
      var at := SortedFrom(entries, leq, k);
      if |sorted[k].item.name| >= TWO_32 {
        return None;
      }
      assert sorted[..k + 1] == sorted[..k] + [sorted[k]];
      RunBytesAppend(sorted[..k], sorted[k], utf8);
      bytes := bytes + Encode(sorted[k].item);
    }
    assert sorted[..|sorted|] == sorted;
    SortedFits(entries, leq, utf8);
    r := Some(files + [bytes]);
  }

  lemma NoBytes(utf8: seq<Octet> -> bool)
    ensures AllStorable([], utf8) && RunBytes([], utf8) == []
  {
  }

  /** Each sorted entry is one of those collected. */
  lemma SortedFrom(entries: seq<SortEntry>, leq: (SortEntry, SortEntry) -> bool, k: nat) returns (at: nat)
    requires k < |StableSort(Tags(entries), leq)|
    ensures at < |entries| && StableSort(Tags(entries), leq)[k] == Tagged(entries[at], entries[at].sequence)
  {
    var s := StableSort(Tags(entries), leq);
    StableSortPermutes(Tags(entries), leq);
    assert s[k] in multiset(s);
    assert s[k] in Tags(entries);
    at :| 0 <= at < |entries| && Tags(entries)[at] == s[k];
  }

  /** And each collected one is among the sorted. */
  lemma SortedFits(entries: seq<SortEntry>, leq: (SortEntry, SortEntry) -> bool, utf8: seq<Octet> -> bool)
    requires AllStorable(StableSort(Tags(entries), leq), utf8)
    ensures NamesFit(entries)
  {
    hide StableSort;
    var s := StableSort(Tags(entries), leq);
    StableSortPermutes(Tags(entries), leq);
    forall i | 0 <= i < |entries| ensures |entries[i].name| < TWO_32 {
      assert Tags(entries)[i] in multiset(Tags(entries));
      assert Tags(entries)[i] in s;
    }
  }

  /** Walks the chain and writes sorted runs of at most `chunkSize` entries. */
  method CollectRuns(index: map<int, IndexEntry>, nameOf: (int, int) -> Option<seq<Octet>>, first: int, itemCount: nat,
                     chunkSize: nat, utf8: seq<Octet> -> bool, names: NameOrder)
    returns (files: Option<seq<seq<Octet>>>, ghost runs: seq<seq<Tagged<SortEntry>>>)
    requires chunkSize > 0 && TotalPreorder(names) && Readable(index, nameOf, itemCount, utf8)
    ensures var es := ChainEntries(index, nameOf, first, itemCount, 0); files.None? <==> es.None? || !NamesFit(es.value)
    ensures files.Some? ==> Files(files.value, runs, utf8)
                            && Collected(runs, ChainEntries(index, nameOf, first, itemCount, 0).value, itemCount,
                                         EntryLeq(names))
  {
    hide StableSort, Collected, TotalPreorder, EntryLeq, Files, AllStorable, RunBytes, ChainEntries, Prefixed, NamesFit,
         Tags, Widths;
    ghost var all, leq := ChainEntries(index, nameOf, first, itemCount, 0), EntryLeq(names);
    NamesOrder(names);
    var at, entries, out := first, [], [];
    ghost var n, read := 0, [];
    runs := [];
    PrefixedNone(all);
    NoFiles(utf8);
    ChainStep(index, nameOf, first, 0, 0, []);
    if all.Some? {
      ChainNumbered(index, nameOf, first, itemCount, 0);
      CollectedNone(all.value, leq);
    }
    for sequence := 0 to itemCount
      invariant 0 <= n <= sequence == |read| && entries == read[n..]
      invariant all == Prefixed(read, ChainEntries(index, nameOf, at, itemCount - sequence, sequence))
      invariant all.Some? ==> Collected(runs, all.value, n, leq)
      invariant Files(out, runs, utf8) && NamesFit(read[..n])
      invariant forall i :: 0 <= i < |read| ==> Widths(read[i], utf8)
    {
      ChainStep(index, nameOf, at, itemCount - sequence, sequence, read);
      if at < 0 || at !in index {
        return None, [];
      }
      var e := index[at];
      var name := nameOf(e.record, e.length);
      if name.None? {
        return None, [];
      }
      EntryWidths(index, nameOf, at, itemCount, sequence, utf8);
      var entry := SortEntry(e.record, e.length, e.selection, name.value, sequence);
      PrefixedNext(read, entry, ChainEntries(index, nameOf, e.next, itemCount - sequence - 1, sequence + 1));
      entries := entries + [entry];
      ghost var before := read;
      read := read + [entry];
      assert entries == read[n..] && read[..n] == before[..n];
      at := e.next;
      if |entries| >= chunkSize {
        var r := FlushRun(entries, out, utf8, names);
        if r.None? {
          LongName(read, n, ChainEntries(index, nameOf, at, itemCount - sequence - 1, sequence + 1));
          return None, [];
        }
        FilesAppend(out, runs, StableSort(Tags(entries), EntryLeq(names)), utf8);
        if all.Some? {
          PrefixedIs(read, ChainEntries(index, nameOf, at, itemCount - sequence - 1, sequence + 1), n);
          assert all.value[n..sequence + 1] == entries;
          CollectedFlush(runs, all.value, n, sequence + 1, leq);
        }
        FitMore(read, n);
        out := r.value;
        runs := runs + [StableSort(Tags(entries), EntryLeq(names))];
        entries, n := [], sequence + 1;
      }
    }
    ChainStep(index, nameOf, at, 0, itemCount, read);
    PrefixedIs(read, Some([]), n);
    var r := FlushRun(entries, out, utf8, names);
    if r.None? {
      LongName(read, n, Some([]));
      return None, [];
    }
    FitMore(read, n);
    assert read[..|read|] == read;
    if entries != [] {
      FilesAppend(out, runs, StableSort(Tags(entries), EntryLeq(names)), utf8);
      CollectedFlush(runs, all.value, n, itemCount, leq);
      runs := runs + [StableSort(Tags(entries), EntryLeq(names))];
    }
    files := r;
  }

  lemma ChainStep(index: map<int, IndexEntry>, names: (int, int) -> Option<seq<Octet>>, first: int, count: nat,
                  sequence: nat, read: seq<SortEntry>)
    ensures count == 0 ==> ChainEntries(index, names, first, count, sequence) == Some([]) && NamesFit([])
    ensures count > 0 && (first < 0 || first !in index) ==>
      Prefixed(read, ChainEntries(index, names, first, count, sequence)) == None
    ensures count > 0 && first >= 0 && first in index ==>
      var e := index[first];
      var name := names(e.record, e.length);
      if name.None? then Prefixed(read, ChainEntries(index, names, first, count, sequence)) == None
      else
        var more := ChainEntries(index, names, e.next, count - 1, sequence + 1);
        ChainEntries(index, names, first, count, sequence) ==
        match more case None => None case Some(es) => Some([SortEntry(e.record, e.length, e.selection, name.value,
                                                                      sequence)] + es)
  {
  }

  lemma EntryWidths(index: map<int, IndexEntry>, nameOf: (int, int) -> Option<seq<Octet>>, at: int, itemCount: nat,
                    sequence: nat, utf8: seq<Octet> -> bool)
    requires Readable(index, nameOf, itemCount, utf8) && at in index && sequence < itemCount
    requires nameOf(index[at].record, index[at].length).Some?
    ensures var e := index[at];
      Widths(SortEntry(e.record, e.length, e.selection, nameOf(e.record, e.length).value, sequence), utf8)
  {
  }

  lemma NoFiles(utf8: seq<Octet> -> bool)
    ensures Files([], [], utf8)
  {
  }

  lemma FilesAppend(files: seq<seq<Octet>>, runs: seq<seq<Tagged<SortEntry>>>, sorted: seq<Tagged<SortEntry>>,
                    utf8: seq<Octet> -> bool)
    requires Files(files, runs, utf8) && AllStorable(sorted, utf8)
    ensures Files(files + [RunBytes(sorted, utf8)], runs + [sorted], utf8)
  {
    hide RunBytes, AllStorable;
  }

  /** A name too long among those read is one of the chain's. */
  lemma LongName(read: seq<SortEntry>, n: nat, more: Option<seq<SortEntry>>)
    requires n <= |read| && !NamesFit(read[n..])
    ensures Prefixed(read, more).Some? ==> !NamesFit(Prefixed(read, more).value)
  {
    var i :| 0 <= i < |read[n..]| && |read[n..][i].name| >= TWO_32;
    if more.Some? {
      assert (read + more.value)[n + i] == read[n..][i];
    }
  }

  lemma FitMore(read: seq<SortEntry>, n: nat)
    requires n <= |read| && NamesFit(read[..n]) && NamesFit(read[n..])
    ensures NamesFit(read) && NamesFit(read[..|read|])
  {
    forall i | 0 <= i < |read| ensures |read[i].name| < TWO_32 {
      assert read[i] == if i < n then read[..n][i] else read[n..][i - n];
    }
    assert read[..|read|] == read;
  }

  function Prefixed(read: seq<SortEntry>, more: Option<seq<SortEntry>>): Option<seq<SortEntry>> {
    match more case None => None case Some(es) => Some(read + es)
  }

  lemma PrefixedNext(read: seq<SortEntry>, e: SortEntry, more: Option<seq<SortEntry>>)
    ensures Prefixed(read, match more case None => None case Some(es) => Some([e] + es)) == Prefixed(read + [e], more)
  {
    if more.Some? {
      assert read + ([e] + more.value) == (read + [e]) + more.value;
    }
  }

  lemma PrefixedNone(more: Option<seq<SortEntry>>)
    ensures Prefixed([], more) == more
  {
    if more.Some? {
      assert [] + more.value == more.value;
    }
  }

  lemma PrefixedIs(read: seq<SortEntry>, more: Option<seq<SortEntry>>, n: nat)
    requires (more.Some? || Prefixed(read, more).Some?) && n <= |read|
    ensures Prefixed(read, more).Some? && Prefixed(read, more).value[n..|read|] == read[n..]
    ensures Prefixed(read, Some([])) == Some(read)
  {
    assert read + [] == read;
  }

  // ----- the result, said without the comparison and the layout

  /** Each entry once, by its place in the old chain: names ascend, entries of equal names stay in order. */
  ghost predicate InNameOrder(es: seq<SortEntry>, order: seq<nat>, names: NameOrder) {
    && |order| == |es| && (forall k :: 0 <= k < |order| ==> order[k] < |es|)
    && (forall k, l :: 0 <= k < l < |order| ==>
          && order[k] != order[l] && names(es[order[k]].name, es[order[l]].name)
          && (names(es[order[l]].name, es[order[k]].name) ==> order[k] < order[l]))
  }

  /** The new chain: at `target` and every `size` bytes after it, in this order, each cell pointing at the
      next one and the last at -1. */
  ghost predicate LaidOut(cells: seq<IndexEntry>, es: seq<SortEntry>, order: seq<nat>, target: int, size: nat) {
    && |cells| == |order|
    && forall k :: 0 <= k < |order| ==>
         && order[k] < |es|
         && cells[k].record == es[order[k]].record && cells[k].length == es[order[k]].length
         && cells[k].selection == es[order[k]].selection
         && cells[k].next == if k == |order| - 1 then -1 else target + (k + 1) * size
  }

  lemma SortedPlaces(es: seq<SortEntry>, names: NameOrder) returns (order: seq<nat>)
    requires TotalPreorder(names) && forall i :: 0 <= i < |es| ==> es[i].sequence == i
    ensures InNameOrder(es, order, names)
    ensures var t := StableSort(Tags(es), EntryLeq(names));
      |t| == |order| && forall k :: 0 <= k < |t| ==> order[k] < |es| && t[k].item == es[order[k]]
  {
    hide StableSort, TotalPreorder;
    var leq, t := EntryLeq(names), StableSort(Tags(es), EntryLeq(names));
    NamesOrder(names);
    StableSortSorts(Tags(es), leq);
    SortLength(Tags(es), leq);
    forall k | 0 <= k < |t| ensures t[k].sequence < |es| && t[k].item == es[t[k].sequence] {
      var at := SortedFrom(es, leq, k);
    }
    order := seq(|t|, k requires 0 <= k < |t| => t[k].sequence);
    forall k, l | 0 <= k < l < |order|
      ensures order[k] != order[l] && names(es[order[k]].name, es[order[l]].name)
      ensures names(es[order[l]].name, es[order[k]].name) ==> order[k] < order[l]
    {
      assert Before(t[k], t[l], leq);
      assert leq(t[k].item, t[l].item);
    }
  }

  lemma ChainLaidOut(t: seq<Tagged<SortEntry>>, es: seq<SortEntry>, order: seq<nat>, target: int, size: nat)
    requires |t| == |order| && forall k :: 0 <= k < |t| ==> order[k] < |es| && t[k].item == es[order[k]]
    ensures LaidOut(Chain(t, target, size), es, order, target, size)
  {
  }

  /** Sorting one chain: an intact chain becomes, at the target, a chain of the same entries in name
      order, ties in their old order; a broken chain, a name too long to write or a bad target is an
      error. */
  method SortChildren(index: map<int, IndexEntry>, nameOf: (int, int) -> Option<seq<Octet>>, first: int, itemCount: nat,
                      chunkSize: nat, target: int, size: nat, utf8: seq<Octet> -> bool, names: NameOrder)
    returns (cells: Option<seq<IndexEntry>>, ghost order: seq<nat>)
    requires chunkSize > 0 && size > 0 && TotalPreorder(names) && Readable(index, nameOf, itemCount, utf8)
    ensures var es := ChainEntries(index, nameOf, first, itemCount, 0);
      && (cells.None? <==> es.None? || !NamesFit(es.value) || target < 0)
      && (cells.Some? ==> cells.value == Chain(StableSort(Tags(es.value), EntryLeq(names)), target, size))
    // which is the entries in ascending order of their names, each linked to the next
    ensures cells.Some? ==>
      var es := ChainEntries(index, nameOf, first, itemCount, 0);
      InNameOrder(es.value, order, names) && LaidOut(cells.value, es.value, order, target, size)
  {
    hide StableSort, Collected, TotalPreorder, EntryLeq, Files, Readable, NamesFit, InNameOrder, LaidOut, Chain;
    order := [];
    var files;
    ghost var runs;
    files, runs := CollectRuns(index, nameOf, first, itemCount, chunkSize, utf8, names);
    if files.None? {
      return None, order;
    }
    ghost var es := ChainEntries(index, nameOf, first, itemCount, 0).value;
    ChainNumbered(index, nameOf, first, itemCount, 0);
    CollectedAll(runs, es, EntryLeq(names));
    cells := MergeRuns(files.value, target, itemCount, size, utf8, names, runs, Tags(es));
    order := SortedPlaces(es, names);
    ChainLaidOut(StableSort(Tags(es), EntryLeq(names)), es, order, target, size);
  }
}
